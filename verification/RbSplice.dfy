/** The stores of `rb_erase` that take a node out of the tree, before any rebalancing. */
module RbSplice {
  import opened RbShape
  import opened RbErasure
  import opened RbMemory

  /** `t` without its leftmost node. */
  function DropMin(t: Tree): Tree
    requires t.Fork?
  {
    if t.left.Leaf? then t.right else t.(left := DropMin(t.left))
  }

  function MinParent(t: Tree): RbNode
    requires t.Fork? && t.left.Fork?
  {
    if t.left.left.Leaf? then t.node else MinParent(t.left)
  }

  // ---------- a node with at most one child ----------

  /** The child `child` of `x` takes the place of `x` below `p`. */
  function SpliceOne(m: Memory, x: RbNode, child: RbNode?, p: RbNode?): Memory {
    PutChild(PutParent(m, child, p), p, x, child)
  }

  lemma {:induction false} SpliceOneCells(m: Memory, z: Path, x: RbNode, t: Tree, q: RbNode?)
    requires OrderedUp(z) && LinkedUp(m, z, x) && Lo(z) < x.msecs < Hi(z)
    requires Ordered(t, Lo(z), Hi(z)) && Linked(m, t, q)
    ensures forall k :: k in m ==>
      k in SpliceOne(m, x, Root(t), Above(z)) && SpliceOne(m, x, Root(t), Above(z))[k] ==
        if k == Root(t) then m[k].(parent := Above(z)) else ReplacedChild(z, m[k], k, Root(t))
  {
    if !z.Top? {
      ChildSide(m, z, x);
    }
  }

  lemma {:induction false} SpliceOneAt(m: Memory, z: Path, x: RbNode, t: Tree)
    requires OrderedUp(z) && LinkedUp(m, z, x) && Lo(z) < x.msecs < Hi(z)
    requires Ordered(t, Lo(z), Hi(z)) && Linked(m, t, x)
    ensures At(SpliceOne(m, x, Root(t), Above(z)), z, t)
  {
    var m' := SpliceOne(m, x, Root(t), Above(z));
    SpliceOneCells(m, z, x, t, x);
    assert !z.Top? ==> !(Lo(z) < z.node.msecs < Hi(z));
    Reparented(m, m', t, x, Above(z), Lo(z), Hi(z));
    Rechilded(m, m', z, x, Root(t));
  }

  // ---------- a node with two children ----------

  /** The nodes that `rb_erase` writes to when `x` has two children and `s` is its successor. */
  predicate CanSpliceTwo(m: Memory, x: RbNode, s: RbNode) {
    && x in m && s in m && x != s && m[x].left != null && m[x].right != null && m[s].parent != null
    && var p, l, r, q, child := m[x].parent, m[x].left, m[x].right, m[s].parent, m[s].right;
    && (p != null ==> p in m && p != s && p != l && p != r && p != x && p != q && p != child)
    && l in m && l != s && l != x && l != q && l != child
    && r in m && r != x && r != child
    && (q == x <==> r == s)
    && q in m && q != s && q != child
    && (child != null ==> child in m && child != s && child != x)
  }

  /** The stores of `rb_erase` in that case, in their order. */
  function SpliceTwo(m: Memory, x: RbNode, s: RbNode): Memory
    requires x in m && s in m
  {
    var m1 := Unhook(PutChild(m, m[x].parent, x, s), x, s, m[x].right, m[s].parent, m[s].right);
    PutParent(PutLeft(PutRed(PutParent(m1, s, m[x].parent), s, m[x].red), s, m[x].left), m[x].left, s)
  }

  /** Among them, those that take `s` away from its parent `q`, unless that is `x`. */
  function Unhook(m: Memory, x: RbNode, s: RbNode, r: RbNode?, q: RbNode?, child: RbNode?): Memory {
    if q == x then m
    else PutParent(PutRight(PutLeft(PutParent(m, child, q), q, child), s, r), r, s)
  }

  lemma UnhookCell(m: Memory, x: RbNode, s: RbNode, r: RbNode, q: RbNode, child: RbNode?, k: RbNode)
    requires k in m && s in m && r in m && q in m && (child != null ==> child in m)
    requires q != x ==> s != r && child != r && q != s && q != child && child != s
    ensures k in Unhook(m, x, s, r, q, child)
    ensures Unhook(m, x, s, r, q, child)[k] ==
      if q == x then m[k]
      else if k == s then m[k].(right := r)
      else if k == child then m[k].(parent := q)
      else if k == q && k == r then m[k].(left := child, parent := s)
      else if k == q then m[k].(left := child)
      else if k == r then m[k].(parent := s)
      else m[k]
  {
  }

  lemma SpliceTwoKeys(m: Memory, x: RbNode, s: RbNode)
    requires x in m && s in m
    ensures SpliceTwo(m, x, s).Keys == m.Keys
  {
    var m1 := PutChild(m, m[x].parent, x, s);
    assert m1.Keys == m.Keys;
    assert Unhook(m1, x, s, m[x].right, m[s].parent, m[s].right).Keys == m.Keys;
  }

  lemma SpliceTwoCell(m: Memory, x: RbNode, s: RbNode, k: RbNode)
    requires CanSpliceTwo(m, x, s) && k in m
    ensures
      var p, l, r, q, child := m[x].parent, m[x].left, m[x].right, m[s].parent, m[s].right;
      k in SpliceTwo(m, x, s) && SpliceTwo(m, x, s)[k] ==
        if k == s then Cell(p, m[x].red, l, if q == x then child else r)
        else if k == l then m[k].(parent := s)
        else if k == p then if m[p].left == x then m[k].(left := s) else m[k].(right := s)
        else if q == x then m[k]
        else if k == child then m[k].(parent := q)
        else if k == q && k == r then m[k].(left := child, parent := s)
        else if k == q then m[k].(left := child)
        else if k == r then m[k].(parent := s)
        else m[k]
  {
    var p, l, r, q, child := m[x].parent, m[x].left, m[x].right, m[s].parent, m[s].right;
    var m1 := PutChild(m, p, x, s);
    UnhookCell(m1, x, s, r, q, child, k);
    UnhookCell(m1, x, s, r, q, child, s);
    UnhookCell(m1, x, s, r, q, child, l);
  }

  // ---------- the tree after such a splice ----------

  lemma {:induction false} MinLinked(m: Memory, t: Tree, p: RbNode?, lo: int, hi: int)
    requires t.Fork? && Linked(m, t, p) && Ordered(t, lo, hi)
    ensures
      var q, mt := if t.left.Fork? then MinParent(t) else p, MinTree(t);
      && Linked(m, mt, q) && Ordered(mt, lo, hi) && (t.left.Fork? ==> q in m && mt.node.msecs < q.msecs < hi)
      && (t.left.Fork? ==> Ordered(mt, lo, q.msecs) && mt.node.msecs < t.node.msecs && q.msecs <= t.node.msecs)
  {
    if t.left.Fork? {
      MinLinked(m, t.left, t.node, lo, t.node.msecs);
      OrderedWiden(MinTree(t.left), lo, t.node.msecs, lo, hi);
    }
  }

  /** The cell of `k` once the leftmost node of `t` is unhooked and `t` hangs below `p'`. */
  function DropMinCell(t: Tree, p': RbNode?, k: RbNode, cell: Cell): Cell
    requires t.Fork? && t.left.Fork?
  {
    var q, child := MinParent(t), Root(MinTree(t).right);
    var cell := if k == q then cell.(left := child) else if k == child then cell.(parent := q) else cell;
    if k == t.node then cell.(parent := p') else cell
  }

  lemma {:induction false} DropMinLinked(m: Memory, m': Memory, t: Tree, p: RbNode?, p': RbNode?, lo: int, hi: int)
    requires t.Fork? && t.left.Fork? && Linked(m, t, p) && Ordered(t, lo, hi)
    requires forall k :: k in m && lo < k.msecs < hi && k != MinTree(t).node ==>
      k in m' && m'[k] == DropMinCell(t, p', k, m[k])
    ensures Linked(m', DropMin(t), p')
  {
    var q, mt := MinParent(t), MinTree(t);
    MinLinked(m, t, p, lo, hi);
    assert mt.right.Fork? ==> mt.node.msecs < mt.right.node.msecs < q.msecs;
    LinkedFrame(m, m', t.right, t.node, t.node.msecs, hi);
    if t.left.left.Leaf? {
      Reparented(m, m', t.left.right, t.left.node, t.node, t.left.node.msecs, t.node.msecs);
    } else {
      MinLinked(m, t.left, t.node, lo, t.node.msecs);
      assert q.msecs < t.node.msecs;
      DropMinLinked(m, m', t.left, t.node, t.node, lo, t.node.msecs);
      assert m'[t.node] == Cell(p', t.red, t.left.node, Root(t.right));
    }
  }

  lemma {:induction false} DropMinOrdered(t: Tree, lo: int, hi: int)
    requires t.Fork? && Ordered(t, lo, hi)
    ensures lo < MinTree(t).node.msecs < hi && Ordered(DropMin(t), MinTree(t).node.msecs, hi)
  {
    if t.left.Fork? {
      DropMinOrdered(t.left, lo, t.node.msecs);
    }
  }

  /** Going down to where the leftmost node of `t` was. */
  lemma {:induction false} DescendToMin(m: Memory, z: Path, t: Tree)
    requires t.Fork? && At(m, z, DropMin(t))
    ensures At(m, MinPath(z, t), MinTree(t).right)
    ensures TopNode(MinPath(z, t), Root(MinTree(t).right)) == TopNode(z, Root(DropMin(t)))
    decreases t
  {
    if t.left.Fork? {
      Descend(m, z, DropMin(t));
      DescendToMin(m, InLeft(z, t.red, t.node, t.right), t.left);
    }
  }

  /** The node above the hole that the leftmost node of `t` leaves. */
  lemma {:induction false} AboveMin(z: Path, t: Tree)
    requires t.Fork?
    ensures Above(MinPath(z, t)) == if t.left.Fork? then MinParent(t) else Above(z)
    decreases t
  {
    if t.left.Fork? {
      AboveMin(InLeft(z, t.red, t.node, t.right), t.left);
    }
  }

  lemma {:induction false} MinCell(m: Memory, t: Tree, p: RbNode?, lo: int, hi: int)
    requires t.Fork? && Linked(m, t, p) && Ordered(t, lo, hi)
    ensures MinTree(t).node in m && m[MinTree(t).node].red == MinTree(t).red
    ensures m[MinTree(t).node].right == Root(MinTree(t).right)
  {
    MinLinked(m, t, p, lo, hi);
  }

  // ---------- the splice at the focus ----------

  lemma {:induction false} SpliceTwoReady(m: Memory, z: Path, t: Tree)
    requires At(m, z, t) && t.Fork? && t.left.Fork? && t.right.Fork?
    ensures CanSpliceTwo(m, t.node, MinTree(t.right).node)
    ensures
      var mt := MinTree(t.right);
      && m[t.node] == Cell(Above(z), t.red, t.left.node, t.right.node)
      && m[mt.node].parent == (if t.right.left.Fork? then MinParent(t.right) else t.node)
      && (m[mt.node].parent == t.node <==> t.right.left.Leaf?)
      && m[mt.node].right == Root(mt.right)
      && t.node.msecs < mt.node.msecs < Hi(z)
  {
    var x, l, r, mt := t.node, t.left, t.right, MinTree(t.right);
    if !z.Top? {
      ChildSide(m, z, x);
    }
    assert Linked(m, l, x) && Linked(m, r, x) && Ordered(l, Lo(z), x.msecs) && Ordered(r, x.msecs, Hi(z));
    MinLinked(m, r, x, x.msecs, Hi(z));
    assert mt.right.Fork? ==> Linked(m, mt.right, mt.node) && Ordered(mt.right, mt.node.msecs, Hi(z));
    assert mt.right.Fork? && r.left.Fork? ==> Ordered(mt.right, mt.node.msecs, MinParent(r).msecs);
  }

  /** The cell of `k` after the splice, in terms of the tree. */
  function SplicedCell(z: Path, t: Tree, k: RbNode, cell: Cell): Cell
    requires t.Fork? && t.left.Fork? && t.right.Fork?
  {
    var s := MinTree(t.right);
    if k == s.node then Cell(Above(z), t.red, t.left.node, Root(DropMin(t.right)))
    else if k == t.left.node then cell.(parent := s.node)
    else if k == Above(z) then ReplacedChild(z, cell, k, s.node)
    else if t.right.left.Fork? then DropMinCell(t.right, s.node, k, cell)
    else cell
  }

  lemma {:induction false} SpliceTwoCells(m: Memory, z: Path, t: Tree)
    requires At(m, z, t) && t.Fork? && t.left.Fork? && t.right.Fork?
    ensures CanSpliceTwo(m, t.node, MinTree(t.right).node)
    ensures forall k :: k in m ==>
      k in SpliceTwo(m, t.node, MinTree(t.right).node) &&
      SpliceTwo(m, t.node, MinTree(t.right).node)[k] == SplicedCell(z, t, k, m[k])
  {
    var x, s := t.node, MinTree(t.right).node;
    SpliceTwoReady(m, z, t);
    if !z.Top? {
      ChildSide(m, z, x);
    }
    assert Linked(m, t.right, x);
    assert Root(DropMin(t.right)) == if t.right.left.Fork? then t.right.node else Root(t.right.right);
    forall k | k in m
      ensures k in SpliceTwo(m, x, s) && SpliceTwo(m, x, s)[k] == SplicedCell(z, t, k, m[k])
    {
      SpliceTwoCell(m, x, s, k);
    }
  }

  lemma {:induction false} SpliceTwoBelow(m: Memory, m': Memory, z: Path, t: Tree)
    requires At(m, z, t) && t.Fork? && t.left.Fork? && t.right.Fork?
    requires forall k :: k in m ==> k in m' && m'[k] == SplicedCell(z, t, k, m[k])
    ensures Linked(m', t.left, MinTree(t.right).node) && Linked(m', DropMin(t.right), MinTree(t.right).node)
  {
    hide Linked, LinkedUp, Ordered, SplicedCell, DropMin, MinTree, Lo, Hi;
    SpliceTwoLeft(m, m', z, t);
    SpliceTwoRight(m, m', z, t);
  }

  lemma SpliceTwoLeft(m: Memory, m': Memory, z: Path, t: Tree)
    requires At(m, z, t) && t.Fork? && t.left.Fork? && t.right.Fork?
    requires forall k :: k in m ==> k in m' && m'[k] == SplicedCell(z, t, k, m[k])
    ensures Linked(m', t.left, MinTree(t.right).node)
  {
    var x, l, r, s := t.node, t.left, t.right, MinTree(t.right).node;
    assert Linked(m, l, x) && Linked(m, r, x) && Ordered(l, Lo(z), x.msecs) && Ordered(r, x.msecs, Hi(z));
    MinLinked(m, r, x, x.msecs, Hi(z));
    assert !z.Top? ==> !(Lo(z) < z.node.msecs < Hi(z));
    if r.left.Fork? {
      assert MinTree(r).right.Fork? ==> Ordered(MinTree(r).right, s.msecs, MinParent(r).msecs);
    }
    Reparented(m, m', l, x, s, Lo(z), x.msecs);
  }

  lemma SpliceTwoRight(m: Memory, m': Memory, z: Path, t: Tree)
    requires At(m, z, t) && t.Fork? && t.left.Fork? && t.right.Fork?
    requires forall k :: k in m ==> k in m' && m'[k] == SplicedCell(z, t, k, m[k])
    ensures Linked(m', DropMin(t.right), MinTree(t.right).node)
  {
    var x, l, r, s := t.node, t.left, t.right, MinTree(t.right).node;
    assert Linked(m, l, x) && Linked(m, r, x) && Ordered(l, Lo(z), x.msecs) && Ordered(r, x.msecs, Hi(z));
    MinLinked(m, r, x, x.msecs, Hi(z));
    assert !z.Top? ==> !(Lo(z) < z.node.msecs < Hi(z));
    if r.left.Fork? {
      DropMinLinked(m, m', r, x, s, x.msecs, Hi(z));
    } else {
      LinkedFrame(m, m', r.right, r.node, r.node.msecs, Hi(z));
    }
  }

  /** Replacing a node with two children by its successor. */
  lemma {:induction false} SpliceTwoAt(m: Memory, z: Path, t: Tree)
    requires At(m, z, t) && t.Fork? && t.left.Fork? && t.right.Fork?
    ensures CanSpliceTwo(m, t.node, MinTree(t.right).node)
    ensures At(SpliceTwo(m, t.node, MinTree(t.right).node), z,
               Fork(t.red, t.left, MinTree(t.right).node, DropMin(t.right)))
  {
    var x, l, r, s := t.node, t.left, t.right, MinTree(t.right).node;
    SpliceTwoReady(m, z, t);
    SpliceTwoCells(m, z, t);
    var m' := SpliceTwo(m, x, s);
    SpliceTwoBelow(m, m', z, t);
    SpliceTwoAbove(m, m', z, t);
    DropMinOrdered(r, x.msecs, Hi(z));
    OrderedWiden(l, Lo(z), x.msecs, Lo(z), s.msecs);
  }

  lemma {:induction false} SpliceTwoAbove(m: Memory, m': Memory, z: Path, t: Tree)
    requires At(m, z, t) && t.Fork? && t.left.Fork? && t.right.Fork?
    requires forall k :: k in m ==> k in m' && m'[k] == SplicedCell(z, t, k, m[k])
    ensures LinkedUp(m', z, MinTree(t.right).node)
  {
    var x, r, s := t.node, t.right, MinTree(t.right);
    assert Linked(m, r, x) && Ordered(t.left, Lo(z), x.msecs) && Ordered(r, x.msecs, Hi(z));
    MinLinked(m, r, x, x.msecs, Hi(z));
    assert s.right.Fork? ==> Ordered(s.right, s.node.msecs, Hi(z));
    Rechilded(m, m', z, x, s.node);
  }
}
