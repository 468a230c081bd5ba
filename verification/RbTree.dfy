/** The pointer code of src/rbtree.c on the heap. */
module RbTree {
  import opened RbShape
  import opened RbInsertion
  import opened RbErasure
  import opened RbMemory
  import opened RbSeek
  import opened RbSpine
  import opened RbSplice

  /** `struct rb_root`.  The ghost field `mem` records the fields of all nodes of the tree, and
      `tree` is the tree they form. */
  class RbRoot {
    var node: RbNode?
    ghost var mem: Memory
    ghost var tree: Tree

    ghost predicate Synced()
      reads this, mem.Keys`parent, mem.Keys`red, mem.Keys`left, mem.Keys`right
    {
      forall k :: k in mem ==> Cell(k.parent, k.red, k.left, k.right) == mem[k]
    }

    /** The heap holds the tree `Plug(z, t)` below this root. */
    ghost predicate Holds(z: Path, t: Tree)
      reads this, mem.Keys`parent, mem.Keys`red, mem.Keys`left, mem.Keys`right
    {
      Synced() && At(mem, z, t) && node == TopNode(z, Root(t))
    }

    /** A red-black tree in order, between calls. */
    ghost predicate Valid()
      reads this, mem.Keys`parent, mem.Keys`red, mem.Keys`left, mem.Keys`right
    {
      Holds(Top, tree) && Sound(tree) && mem.Keys == NodeSet(tree)
    }

    /** `RB_ROOT` */
    constructor ()
      ensures Valid() && tree == Leaf && mem == map[]
    {
      node, mem, tree := null, map[], Leaf;
    }

    // ---------- stores ----------

    method SetParent(n: RbNode, p: RbNode?)
      requires Synced() && n in mem
      modifies this`mem, n`parent
      ensures Synced() && mem == PutParent(old(mem), n, p)
    {
      n.parent := p;
      mem := mem[n := mem[n].(parent := p)];
    }

    method SetRed(n: RbNode, red: bool)
      requires Synced() && n in mem
      modifies this`mem, n`red
      ensures Synced() && mem == PutRed(old(mem), n, red)
    {
      n.red := red;
      mem := mem[n := mem[n].(red := red)];
    }

    method SetLeft(n: RbNode, l: RbNode?)
      requires Synced() && n in mem
      modifies this`mem, n`left
      ensures Synced() && mem == PutLeft(old(mem), n, l)
    {
      n.left := l;
      mem := mem[n := mem[n].(left := l)];
    }

    method SetRight(n: RbNode, r: RbNode?)
      requires Synced() && n in mem
      modifies this`mem, n`right
      ensures Synced() && mem == PutRight(old(mem), n, r)
    {
      n.right := r;
      mem := mem[n := mem[n].(right := r)];
    }

    /** Makes the link from `p`, or from the root, that leads to `before` lead to `after`. */
    method SetChild(p: RbNode?, before: RbNode, after: RbNode?)
      requires Synced() && (p != null ==> p in mem)
      modifies this, (if p == null then {} else {p})`left, (if p == null then {} else {p})`right
      ensures Synced() && mem == PutChild(old(mem), p, before, after)
      ensures node == if p == null then after else old(node)
    {
      if p != null {
        if before == p.left {
          SetLeft(p, after);
        } else {
          SetRight(p, after);
        }
      } else {
        node := after;
      }
    }

    method SetChildFromRight(p: RbNode?, before: RbNode, after: RbNode?)
      requires Synced() && (p != null ==> p in mem)
      modifies this, (if p == null then {} else {p})`left, (if p == null then {} else {p})`right
      ensures Synced() && mem == PutChildFromRight(old(mem), p, before, after)
      ensures node == if p == null then after else old(node)
    {
      if p != null {
        if before == p.right {
          SetRight(p, after);
        } else {
          SetLeft(p, after);
        }
      } else {
        node := after;
      }
    }

    // ---------- rotations ----------

    /** `__rb_rotate_left` */
    method StoreRotateLeft(n: RbNode)
      requires Synced() && CanRotateLeft(mem, n)
      modifies this, mem.Keys`left, mem.Keys`right, mem.Keys`parent
      ensures Synced() && mem == RotateLeft(old(mem), n)
      ensures node == if old(mem)[n].parent == null then old(mem)[n].right else old(node)
    {
      var right := n.right;
      var parent := n.parent;
      SetRight(n, right.left);
      if n.right != null {
        SetParent(right.left, n);
      }
      SetLeft(right, n);
      SetParent(right, parent);
      SetChild(parent, n, right);
      SetParent(n, right);
    }

    /** `__rb_rotate_right` */
    method StoreRotateRight(n: RbNode)
      requires Synced() && CanRotateRight(mem, n)
      modifies this, mem.Keys`left, mem.Keys`right, mem.Keys`parent
      ensures Synced() && mem == RotateRight(old(mem), n)
      ensures node == if old(mem)[n].parent == null then old(mem)[n].left else old(node)
    {
      var left := n.left;
      var parent := n.parent;
      SetLeft(n, left.right);
      if n.left != null {
        SetParent(left.right, n);
      }
      SetRight(left, n);
      SetParent(left, parent);
      SetChildFromRight(parent, n, left);
      SetParent(n, left);
    }

    // ---------- steps at the focus ----------

    lemma Rise(z: Path, t: Tree)
      requires Holds(z, t) && !z.Top?
      ensures Holds(z.up, Joined(z, t))
    {
      Ascend(mem, z, t);
    }

    lemma Sink(z: Path, t: Tree)
      requires Holds(z, t) && t.Fork?
      ensures Holds(InLeft(z, t.red, t.node, t.right), t.left)
      ensures Holds(InRight(z, t.red, t.left, t.node), t.right)
    {
      Descend(mem, z, t);
    }

    lemma {:induction false} RiseToTop(z: Path, t: Tree)
      requires Holds(z, t)
      ensures Holds(Top, Plug(z, t))
      decreases z
    {
      if !z.Top? {
        Rise(z, t);
        RiseToTop(z.up, Joined(z, t));
      }
    }

    /** What the fields of the node at the focus hold. */
    lemma LookDown(z: Path, t: Tree)
      requires Holds(z, t) && t.Fork?
      ensures t.node in mem && t.node.red == t.red && t.node.left == Root(t.left) && t.node.right == Root(t.right)
      ensures t.node.parent == Above(z)
      ensures t.left.Fork? ==> t.left.node in mem && t.left.node.red == t.left.red
      ensures t.right.Fork? ==> t.right.node in mem && t.right.node.red == t.right.red
      ensures t.left.Fork? && t.right.Fork? ==> t.left.node != t.right.node
    {
      assert Linked(mem, t.left, t.node) && Linked(mem, t.right, t.node);
      assert Ordered(t.left, Lo(z), t.node.msecs) && Ordered(t.right, t.node.msecs, Hi(z));
    }

    /** What the fields of the two nodes above the focus hold. */
    lemma LookUp(z: Path, t: Tree)
      requires Holds(z, t) && t.Fork?
      ensures t.node.parent == Above(z)
      ensures !z.Top? ==> z.node in mem && z.node.red == z.red && z.node.parent == Above(z.up)
      ensures !z.Top? ==> ((z.node.left == t.node) <==> z.InLeft?)
      ensures !z.Top? && !z.up.Top? ==> ((z.up.node.left == z.node) <==> z.up.InLeft?)
    {
      LookDown(z, t);
      if !z.Top? {
        Rise(z, t);
        LookDown(z.up, Joined(z, t));
        if !z.up.Top? {
          Rise(z.up, Joined(z, t));
          LookDown(z.up.up, Joined(z.up, Joined(z, t)));
        }
      }
    }

    method Colour(n: RbNode, red: bool, ghost z: Path, ghost t: Tree)
      requires Holds(z, t) && Root(t) == n
      modifies this`mem, n`red
      ensures Holds(z, t.(red := red)) && mem.Keys == old(mem.Keys)
    {
      Recoloured(mem, z, t, red);
      SetRed(n, red);
    }

    method ColourLeft(ghost n: RbNode, child: RbNode, red: bool, ghost z: Path, ghost t: Tree)
      requires Holds(z, t) && Root(t) == n && Root(t.left) == child
      modifies this`mem, child`red
      ensures Holds(z, t.(left := t.left.(red := red))) && mem.Keys == old(mem.Keys)
    {
      Sink(z, t);
      Colour(child, red, InLeft(z, t.red, n, t.right), t.left);
      Rise(InLeft(z, t.red, n, t.right), t.left.(red := red));
    }

    method ColourRight(ghost n: RbNode, child: RbNode, red: bool, ghost z: Path, ghost t: Tree)
      requires Holds(z, t) && Root(t) == n && Root(t.right) == child
      modifies this`mem, child`red
      ensures Holds(z, t.(right := t.right.(red := red))) && mem.Keys == old(mem.Keys)
    {
      Sink(z, t);
      Colour(child, red, InRight(z, t.red, t.left, n), t.right);
      Rise(InRight(z, t.red, t.left, n), t.right.(red := red));
    }

    method TurnLeft(n: RbNode, ghost z: Path, ghost t: Tree)
      requires Holds(z, t) && Root(t) == n && t.right.Fork?
      modifies this, mem.Keys`left, mem.Keys`right, mem.Keys`parent
      ensures Holds(z, RotatedLeft(t)) && mem.Keys == old(mem.Keys)
    {
      RotateLeftAt(mem, z, t);
      StoreRotateLeft(n);
    }

    method TurnRight(n: RbNode, ghost z: Path, ghost t: Tree)
      requires Holds(z, t) && Root(t) == n && t.left.Fork?
      modifies this, mem.Keys`left, mem.Keys`right, mem.Keys`parent
      ensures Holds(z, RotatedRight(t)) && mem.Keys == old(mem.Keys)
    {
      RotateRightAt(mem, z, t);
      StoreRotateRight(n);
    }

    method BlackenRoot(ghost z: Path, ghost t: Tree)
      requires Holds(z, t) && t.Fork?
      modifies this`mem, mem.Keys`red
      ensures Holds(Top, Blacken(Plug(z, t))) && mem.Keys == old(mem.Keys)
    {
      RiseToTop(z, t);
      PlugFork(z, t);
      LookDown(Top, Plug(z, t));
      Colour(node, false, Top, Plug(z, t));
    }

    // ---------- insertion ----------

    lemma LookAtUncle(z: Path, t: Tree)
      requires Holds(z, t) && !z.Top? && !z.up.Top?
      ensures Root(Uncle(z)) == if z.up.InLeft? then z.up.node.right else z.up.node.left
      ensures Uncle(z).Fork? ==> Uncle(z).node in mem && Uncle(z).node.red == Uncle(z).red
    {
      Rise(z, t);
      Rise(z.up, Joined(z, t));
      LookDown(z.up.up, Joined(z.up, Joined(z, t)));
    }

    /** The rotations of `rb_insert_color` with the parent on the left of the grandparent. */
    method InsertTurnLeft(n: RbNode, parent: RbNode, gparent: RbNode, ghost z: Path, ghost t: Tree) returns (n': RbNode)
      requires Holds(z, t) && Root(t) == n && IsRed(t) && !z.Top? && z.red && z.up.InLeft?
      requires z.node == parent && z.up.node == gparent
      modifies this, mem.Keys`left, mem.Keys`right, mem.Keys`parent, mem.Keys`red
      ensures mem.Keys == old(mem.Keys) && n' == Root(OuterLeft(z, t).left)
      ensures
        var p := OuterLeft(z, t);
        Holds(InLeft(z.up.up, false, p.node, Fork(true, p.right, gparent, z.up.right)), p.left)
    {
      ghost var up, p := z.up.up, Joined(z, t);
      Rise(z, t);
      LookDown(z.up, p);
      var parent := parent;
      n' := n;
      if parent.right == n {
        TurnLeft(parent, z.up, p);
        parent, n', p := n, parent, RotatedLeft(p);
      }
      ghost var g := Joined(z.up, p);
      Rise(z.up, p);
      ColourLeft(gparent, parent, false, up, g);
      Colour(gparent, true, up, g.(left := Blacken(p)));
      g := Fork(true, Blacken(p), gparent, g.right);
      TurnRight(gparent, up, g);
      Sink(up, RotatedRight(g));
    }

    /** The recolouring of `rb_insert_color` with the parent on the left of the grandparent. */
    method InsertPushLeft(parent: RbNode, uncle: RbNode, gparent: RbNode, ghost z: Path, ghost t: Tree)
      requires Holds(z, t) && !z.Top? && z.red && z.node == parent
      requires z.up.InLeft? && z.up.node == gparent && Root(z.up.right) == uncle
      modifies this`mem, mem.Keys`red
      ensures mem.Keys == old(mem.Keys) && Holds(z.up.up, PushedUp(z, t))
    {
      ghost var up, g := z.up.up, Joined(z.up, Joined(z, t));
      Rise(z, t);
      Rise(z.up, Joined(z, t));
      LookDown(up, g);
      ColourRight(gparent, uncle, false, up, g);
      ColourLeft(gparent, parent, false, up, g.(right := Blacken(g.right)));
      Colour(gparent, true, up, Fork(z.up.red, Blacken(g.left), gparent, Blacken(g.right)));
    }

    /** One round of `rb_insert_color` with the parent on the left of the grandparent. */
    method InsertRoundLeft(n: RbNode, parent: RbNode, gparent: RbNode, ghost z: Path, ghost t: Tree, ghost h: nat)
      returns (n': RbNode, ghost z': Path, ghost t': Tree, ghost h': nat)
      requires Holds(z, t) && Root(t) == n && IsRed(t) && Rb(t, h) && RbPath(z, false, h)
      requires !z.Top? && z.red && z.node == parent && z.up.InLeft? && z.up.node == gparent
      modifies this, mem.Keys`left, mem.Keys`right, mem.Keys`parent, mem.Keys`red
      ensures Holds(z', t') && Root(t') == n' && IsRed(t') && Rb(t', h') && RbPath(z', false, h')
      ensures InsertFix(z', t') == InsertFix(z, t) && Depth(z') < Depth(z) && mem.Keys == old(mem.Keys)
    {
      LookAtUncle(z, t);
      var uncle := gparent.right;
      if uncle != null && uncle.red {
        PushUpStep(z, t, h);
        InsertPushLeft(parent, uncle, gparent, z, t);
        n', z', t', h' := gparent, z.up.up, PushedUp(z, t), h + 1;
      } else {
        TurnStepLeft(z, t, h);
        ghost var p := OuterLeft(z, t);
        n' := InsertTurnLeft(n, parent, gparent, z, t);
        z', t', h' := InLeft(z.up.up, false, p.node, Fork(true, p.right, gparent, z.up.right)), p.left, h;
      }
    }

    /** The rotations of `rb_insert_color` with the parent on the right of the grandparent. */
    method InsertTurnRight(n: RbNode, parent: RbNode, gparent: RbNode, ghost z: Path, ghost t: Tree) returns (n': RbNode)
      requires Holds(z, t) && Root(t) == n && IsRed(t) && !z.Top? && z.red && z.up.InRight?
      requires z.node == parent && z.up.node == gparent
      modifies this, mem.Keys`left, mem.Keys`right, mem.Keys`parent, mem.Keys`red
      ensures mem.Keys == old(mem.Keys) && n' == Root(OuterRight(z, t).right)
      ensures
        var p := OuterRight(z, t);
        Holds(InRight(z.up.up, false, Fork(true, z.up.left, gparent, p.left), p.node), p.right)
    {
      ghost var up, p := z.up.up, Joined(z, t);
      Rise(z, t);
      LookDown(z.up, p);
      var parent := parent;
      n' := n;
      if parent.left == n {
        TurnRight(parent, z.up, p);
        parent, n', p := n, parent, RotatedRight(p);
      }
      ghost var g := Joined(z.up, p);
      Rise(z.up, p);
      ColourRight(gparent, parent, false, up, g);
      Colour(gparent, true, up, g.(right := Blacken(p)));
      g := Fork(true, g.left, gparent, Blacken(p));
      TurnLeft(gparent, up, g);
      Sink(up, RotatedLeft(g));
    }

    /** The recolouring of `rb_insert_color` with the parent on the right of the grandparent. */
    method InsertPushRight(parent: RbNode, uncle: RbNode, gparent: RbNode, ghost z: Path, ghost t: Tree)
      requires Holds(z, t) && !z.Top? && z.red && z.node == parent
      requires z.up.InRight? && z.up.node == gparent && Root(z.up.left) == uncle
      modifies this`mem, mem.Keys`red
      ensures mem.Keys == old(mem.Keys) && Holds(z.up.up, PushedUp(z, t))
    {
      ghost var up, g := z.up.up, Joined(z.up, Joined(z, t));
      Rise(z, t);
      Rise(z.up, Joined(z, t));
      LookDown(up, g);
      ColourLeft(gparent, uncle, false, up, g);
      ColourRight(gparent, parent, false, up, g.(left := Blacken(g.left)));
      Colour(gparent, true, up, Fork(z.up.red, Blacken(g.left), gparent, Blacken(g.right)));
    }

    /** One round of `rb_insert_color` with the parent on the right of the grandparent. */
    method InsertRoundRight(n: RbNode, parent: RbNode, gparent: RbNode, ghost z: Path, ghost t: Tree, ghost h: nat)
      returns (n': RbNode, ghost z': Path, ghost t': Tree, ghost h': nat)
      requires Holds(z, t) && Root(t) == n && IsRed(t) && Rb(t, h) && RbPath(z, false, h)
      requires !z.Top? && z.red && z.node == parent && z.up.InRight? && z.up.node == gparent
      modifies this, mem.Keys`left, mem.Keys`right, mem.Keys`parent, mem.Keys`red
      ensures Holds(z', t') && Root(t') == n' && IsRed(t') && Rb(t', h') && RbPath(z', false, h')
      ensures InsertFix(z', t') == InsertFix(z, t) && Depth(z') < Depth(z) && mem.Keys == old(mem.Keys)
    {
      LookAtUncle(z, t);
      var uncle := gparent.left;
      if uncle != null && uncle.red {
        PushUpStep(z, t, h);
        InsertPushRight(parent, uncle, gparent, z, t);
        n', z', t', h' := gparent, z.up.up, PushedUp(z, t), h + 1;
      } else {
        TurnStepRight(z, t, h);
        ghost var p := OuterRight(z, t);
        n' := InsertTurnRight(n, parent, gparent, z, t);
        z', t', h' := InRight(z.up.up, false, Fork(true, z.up.left, gparent, p.left), p.node), p.right, h;
      }
    }

    /** A round of `rb_insert_color` */
    method InsertRound(n: RbNode, ghost z: Path, ghost t: Tree, ghost h: nat)
      returns (n': RbNode, ghost z': Path, ghost t': Tree, ghost h': nat)
      requires Holds(z, t) && Root(t) == n && IsRed(t) && Rb(t, h) && RbPath(z, false, h)
      requires !z.Top? && z.red && n.parent == z.node
      modifies this, mem.Keys`left, mem.Keys`right, mem.Keys`parent, mem.Keys`red
      ensures Holds(z', t') && Root(t') == n' && IsRed(t') && Rb(t', h') && RbPath(z', false, h')
      ensures n'.parent == Above(z') && (!z'.Top? ==> z'.node.red == z'.red)
      ensures InsertFix(z', t') == InsertFix(z, t) && Depth(z') < Depth(z) && mem.Keys == old(mem.Keys)
    {
      hide Rb, InsertFix, TopNode;
      LookUp(z, t);
      var parent := n.parent;
      var gparent := parent.parent;
      if parent == gparent.left {
        n', z', t', h' := InsertRoundLeft(n, parent, gparent, z, t, h);
      } else {
        n', z', t', h' := InsertRoundRight(n, parent, gparent, z, t, h);
      }
      LookUp(z', t');
    }

    /** `rb_insert_color` */
    method InsertColor(n: RbNode, ghost z0: Path, ghost t0: Tree, ghost h0: nat)
      requires Holds(z0, t0) && Root(t0) == n && IsRed(t0) && Rb(t0, h0) && RbPath(z0, false, h0)
      modifies this, mem.Keys`left, mem.Keys`right, mem.Keys`parent, mem.Keys`red
      ensures Holds(Top, InsertFix(z0, t0)) && mem.Keys == old(mem.Keys)
    {
      hide Rb, RbPath, InsertFix, TopNode, Blacken;
      var n := n;
      ghost var z, t, h := z0, t0, h0;
      LookUp(z, t);
      while n.parent != null && n.parent.red
        invariant Holds(z, t) && Root(t) == n && IsRed(t) && Rb(t, h) && RbPath(z, false, h)
        invariant n.parent == Above(z) && (!z.Top? ==> z.node.red == z.red)
        invariant InsertFix(z, t) == InsertFix(z0, t0) && mem.Keys == old(mem.Keys)
        decreases Depth(z)
      {
        n, z, t, h := InsertRound(n, z, t, h);
      }
      InsertEnds(z, t);
      BlackenRoot(z, t);
    }

    // ---------- erasure ----------

    /** A red sibling on the right: rotate it up, so that the sibling is black. */
    method LowerRedSiblingLeft(parent: RbNode, other: RbNode, ghost z: Path, ghost t: Tree)
      requires Holds(z, t) && z.InLeft? && z.node == parent && Root(z.right) == other
      modifies this, mem.Keys`left, mem.Keys`right, mem.Keys`parent, mem.Keys`red
      ensures mem.Keys == old(mem.Keys)
      ensures Holds(InLeft(InLeft(z.up, false, z.right.node, z.right.right), true, parent, z.right.left), t)
    {
      ghost var g := Joined(z, t);
      Rise(z, t);
      LookDown(z.up, g);
      ColourRight(parent, other, false, z.up, g);
      Colour(parent, true, z.up, g.(right := Blacken(z.right)));
      g := Fork(true, t, parent, Blacken(z.right));
      TurnLeft(parent, z.up, g);
      Sink(z.up, RotatedLeft(g));
      Sink(InLeft(z.up, false, z.right.node, z.right.right), Fork(true, t, parent, z.right.left));
    }

    /** A black sibling without red children becomes red. */
    method ReddenSiblingLeft(parent: RbNode, other: RbNode, ghost z: Path, ghost t: Tree)
      requires Holds(z, t) && z.InLeft? && z.node == parent && Root(z.right) == other
      modifies this`mem, mem.Keys`red
      ensures mem.Keys == old(mem.Keys)
      ensures Holds(z.up, Fork(z.red, t, parent, z.right.(red := true)))
    {
      ghost var g := Joined(z, t);
      Rise(z, t);
      LookDown(z.up, g);
      ColourRight(parent, other, true, z.up, g);
    }

    /** A black sibling with a red child gives up a black node. */
    method BorrowRightSibling(parent: RbNode, other: RbNode, ghost z: Path, ghost t: Tree)
      requires Holds(z, t) && z.InLeft? && z.node == parent && Root(z.right) == other && !z.right.red
      requires IsRed(z.right.left) || IsRed(z.right.right)
      modifies this, mem.Keys`left, mem.Keys`right, mem.Keys`parent, mem.Keys`red
      ensures mem.Keys == old(mem.Keys)
      ensures Holds(z.up, BorrowRight(z.red, t, parent, z.right))
    {
      ghost var s, up := z.right, z.up;
      ghost var zs := InRight(up, z.red, t, parent);
      Rise(z, t);
      LookDown(up, Joined(z, t));
      Sink(up, Joined(z, t));
      LookDown(zs, s);
      var other := other;
      if other.right == null || !other.right.red {
        ColourLeft(other, other.left, false, zs, s);
        s := s.(left := Blacken(s.left));
        Colour(other, true, zs, s);
        s := s.(red := true);
        TurnRight(other, zs, s);
        s := RotatedRight(s);
        Rise(zs, s);
        LookDown(up, Joined(zs, s));
        other := parent.right;
      }
      FinishBorrowRight(parent, other, zs, s);
    }

    method FinishBorrowRight(parent: RbNode, other: RbNode, ghost z: Path, ghost s: Tree)
      requires Holds(z, s) && z.InRight? && z.node == parent && Root(s) == other && s.right.Fork?
      modifies this, mem.Keys`left, mem.Keys`right, mem.Keys`parent, mem.Keys`red
      ensures mem.Keys == old(mem.Keys)
      ensures Holds(z.up, Fork(z.red, Fork(false, z.left, parent, s.left), other, Blacken(s.right)))
    {
      ghost var s := s;
      Rise(z, s);
      LookDown(z.up, Joined(z, s));
      LookDown(z, s);
      Colour(other, parent.red, z, s);
      s := s.(red := z.red);
      Rise(z, s);
      ghost var g := Joined(z, s);
      Colour(parent, false, z.up, g);
      Sink(z.up, g.(red := false));
      LookDown(InRight(z.up, false, z.left, z.node), s);
      ColourRight(other, other.right, false, InRight(z.up, false, z.left, z.node), s);
      s := s.(right := Blacken(s.right));
      Rise(InRight(z.up, false, z.left, z.node), s);
      TurnLeft(parent, z.up, Joined(InRight(z.up, false, z.left, z.node), s));
    }

    /** A red sibling on the left: rotate it up, so that the sibling is black. */
    method LowerRedSiblingRight(parent: RbNode, other: RbNode, ghost z: Path, ghost t: Tree)
      requires Holds(z, t) && z.InRight? && z.node == parent && Root(z.left) == other
      modifies this, mem.Keys`left, mem.Keys`right, mem.Keys`parent, mem.Keys`red
      ensures mem.Keys == old(mem.Keys)
      ensures Holds(InRight(InRight(z.up, false, z.left.left, z.left.node), true, z.left.right, parent), t)
    {
      ghost var g := Joined(z, t);
      Rise(z, t);
      LookDown(z.up, g);
      ColourLeft(parent, other, false, z.up, g);
      Colour(parent, true, z.up, g.(left := Blacken(z.left)));
      g := Fork(true, Blacken(z.left), parent, t);
      TurnRight(parent, z.up, g);
      Sink(z.up, RotatedRight(g));
      Sink(InRight(z.up, false, z.left.left, z.left.node), Fork(true, z.left.right, parent, t));
    }

    /** A black sibling without red children becomes red. */
    method ReddenSiblingRight(parent: RbNode, other: RbNode, ghost z: Path, ghost t: Tree)
      requires Holds(z, t) && z.InRight? && z.node == parent && Root(z.left) == other
      modifies this`mem, mem.Keys`red
      ensures mem.Keys == old(mem.Keys)
      ensures Holds(z.up, Fork(z.red, z.left.(red := true), parent, t))
    {
      ghost var g := Joined(z, t);
      Rise(z, t);
      LookDown(z.up, g);
      ColourLeft(parent, other, true, z.up, g);
    }

    /** A black sibling with a red child gives up a black node. */
    method BorrowLeftSibling(parent: RbNode, other: RbNode, ghost z: Path, ghost t: Tree)
      requires Holds(z, t) && z.InRight? && z.node == parent && Root(z.left) == other && !z.left.red
      requires IsRed(z.left.left) || IsRed(z.left.right)
      modifies this, mem.Keys`left, mem.Keys`right, mem.Keys`parent, mem.Keys`red
      ensures mem.Keys == old(mem.Keys)
      ensures Holds(z.up, BorrowLeft(z.red, z.left, parent, t))
    {
      ghost var s, up := z.left, z.up;
      ghost var zs := InLeft(up, z.red, parent, t);
      Rise(z, t);
      LookDown(up, Joined(z, t));
      Sink(up, Joined(z, t));
      LookDown(zs, s);
      var other := other;
      if other.left == null || !other.left.red {
        ColourRight(other, other.right, false, zs, s);
        s := s.(right := Blacken(s.right));
        Colour(other, true, zs, s);
        s := s.(red := true);
        TurnLeft(other, zs, s);
        s := RotatedLeft(s);
        Rise(zs, s);
        LookDown(up, Joined(zs, s));
        other := parent.left;
      }
      FinishBorrowLeft(parent, other, zs, s);
    }

    method FinishBorrowLeft(parent: RbNode, other: RbNode, ghost z: Path, ghost s: Tree)
      requires Holds(z, s) && z.InLeft? && z.node == parent && Root(s) == other && s.left.Fork?
      modifies this, mem.Keys`left, mem.Keys`right, mem.Keys`parent, mem.Keys`red
      ensures mem.Keys == old(mem.Keys)
      ensures Holds(z.up, Fork(z.red, Blacken(s.left), other, Fork(false, s.right, parent, z.right)))
    {
      ghost var s := s;
      Rise(z, s);
      LookDown(z.up, Joined(z, s));
      LookDown(z, s);
      Colour(other, parent.red, z, s);
      s := s.(red := z.red);
      Rise(z, s);
      ghost var g := Joined(z, s);
      Colour(parent, false, z.up, g);
      Sink(z.up, g.(red := false));
      LookDown(InLeft(z.up, false, z.node, z.right), s);
      ColourLeft(other, other.left, false, InLeft(z.up, false, z.node, z.right), s);
      s := s.(left := Blacken(s.left));
      Rise(InLeft(z.up, false, z.node, z.right), s);
      TurnRight(parent, z.up, Joined(InLeft(z.up, false, z.node, z.right), s));
    }
    /** One round of `__rb_erase_color` with the short subtree on the left; `done` is its `break`. */
    method EraseRoundLeft(parent: RbNode, ghost z: Path, ghost t: Tree, ghost h: nat)
      returns (n: RbNode?, parent': RbNode?, done: bool, ghost z': Path, ghost t': Tree, ghost h': nat)
      requires Holds(z, t) && z.InLeft? && z.node == parent
      requires !IsRed(t) && RbBelow(t, h) && RbPath(z, false, h + 1)
      modifies this, mem.Keys`left, mem.Keys`right, mem.Keys`parent, mem.Keys`red
      ensures mem.Keys == old(mem.Keys) && Holds(z', t') && Root(t') == n && t'.Fork?
      ensures !done ==> Above(z') == parent' && RbBelow(t', h') && RbPath(z', false, h' + 1)
      ensures !done ==> EraseFix(z', t') == EraseFix(z, t) && EraseMeasure(z', t') < EraseMeasure(z, t)
      ensures done ==> z'.Top? && Blacken(t') == EraseFix(z, t)
    {
      ghost var z1, s := z, z.right;
      StartLeft(z.up, z.red, t, parent, z.right, h);
      Rise(z, t);
      LookDown(z.up, Joined(z, t));
      var other := parent.right;
      if other.red {
        LowerRedSiblingLeft(parent, other, z, t);
        z1 := InLeft(InLeft(z.up, false, z.right.node, z.right.right), true, parent, z.right.left);
        s := s.left;
        Rise(z1, t);
        LookDown(z1.up, Joined(z1, t));
        other := parent.right;
      }
      n, parent', done, z', t', h' := EraseFinishLeft(parent, other, z1, t, h);
    }

    /** The part of a round that starts with a black sibling. */
    method EraseFinishLeft(parent: RbNode, other: RbNode, ghost z: Path, ghost t: Tree, ghost h: nat)
      returns (n: RbNode?, parent': RbNode?, done: bool, ghost z': Path, ghost t': Tree, ghost h': nat)
      requires Holds(z, t) && z.InLeft? && z.node == parent && Root(z.right) == other
      requires ReadyLeft(z.up, z.red, t, parent, z.right, h)
      modifies this, mem.Keys`left, mem.Keys`right, mem.Keys`parent, mem.Keys`red
      ensures mem.Keys == old(mem.Keys) && Holds(z', t') && Root(t') == n && t'.Fork?
      ensures !done ==> Above(z') == parent' && RbBelow(t', h') && RbPath(z', false, h' + 1)
      ensures !done ==> z' == z.up && IsRed(t') == z.red
      ensures !done ==> EraseFix(z', t') == EraseStepLeft(z.up, z.red, t, parent, z.right)
      ensures done ==> z'.Top? && Blacken(t') == EraseStepLeft(z.up, z.red, t, parent, z.right)
    {
      ghost var s := z.right;
      FinishLeft(z.up, z.red, t, parent, s, h);
      LookAtNephews(z, t);
      if (other.left == null || !other.left.red) && (other.right == null || !other.right.red) {
        ReddenSiblingLeft(parent, other, z, t);
        z', t', h' := z.up, Fork(z.red, t, parent, s.(red := true)), if z.red then h else h + 1;
        LookDown(z', t');
        n, parent', done := parent, parent.parent, false;
      } else {
        BorrowRightSibling(parent, other, z, t);
        ghost var g := BorrowRight(z.red, t, parent, s);
        RiseToTop(z.up, g);
        PlugFork(z.up, g);
        z', t', h' := Top, Plug(z.up, g), h;
        n, parent', done := node, null, true;
      }
    }

    /** One round of `__rb_erase_color` with the short subtree on the right; `done` is its `break`. */
    method EraseRoundRight(parent: RbNode, ghost z: Path, ghost t: Tree, ghost h: nat)
      returns (n: RbNode?, parent': RbNode?, done: bool, ghost z': Path, ghost t': Tree, ghost h': nat)
      requires Holds(z, t) && z.InRight? && z.node == parent
      requires !IsRed(t) && RbBelow(t, h) && RbPath(z, false, h + 1)
      modifies this, mem.Keys`left, mem.Keys`right, mem.Keys`parent, mem.Keys`red
      ensures mem.Keys == old(mem.Keys) && Holds(z', t') && Root(t') == n && t'.Fork?
      ensures !done ==> Above(z') == parent' && RbBelow(t', h') && RbPath(z', false, h' + 1)
      ensures !done ==> EraseFix(z', t') == EraseFix(z, t) && EraseMeasure(z', t') < EraseMeasure(z, t)
      ensures done ==> z'.Top? && Blacken(t') == EraseFix(z, t)
    {
      ghost var z1, s := z, z.left;
      StartRight(z.up, z.red, z.left, parent, t, h);
      Rise(z, t);
      LookDown(z.up, Joined(z, t));
      var other := parent.left;
      if other.red {
        LowerRedSiblingRight(parent, other, z, t);
        z1 := InRight(InRight(z.up, false, z.left.left, z.left.node), true, z.left.right, parent);
        s := s.right;
        Rise(z1, t);
        LookDown(z1.up, Joined(z1, t));
        other := parent.left;
      }
      n, parent', done, z', t', h' := EraseFinishRight(parent, other, z1, t, h);
    }

    /** The part of a round that starts with a black sibling. */
    method EraseFinishRight(parent: RbNode, other: RbNode, ghost z: Path, ghost t: Tree, ghost h: nat)
      returns (n: RbNode?, parent': RbNode?, done: bool, ghost z': Path, ghost t': Tree, ghost h': nat)
      requires Holds(z, t) && z.InRight? && z.node == parent && Root(z.left) == other
      requires ReadyRight(z.up, z.red, z.left, parent, t, h)
      modifies this, mem.Keys`left, mem.Keys`right, mem.Keys`parent, mem.Keys`red
      ensures mem.Keys == old(mem.Keys) && Holds(z', t') && Root(t') == n && t'.Fork?
      ensures !done ==> Above(z') == parent' && RbBelow(t', h') && RbPath(z', false, h' + 1)
      ensures !done ==> z' == z.up && IsRed(t') == z.red
      ensures !done ==> EraseFix(z', t') == EraseStepRight(z.up, z.red, z.left, parent, t)
      ensures done ==> z'.Top? && Blacken(t') == EraseStepRight(z.up, z.red, z.left, parent, t)
    {
      ghost var s := z.left;
      FinishRight(z.up, z.red, s, parent, t, h);
      LookAtNephews(z, t);
      if (other.left == null || !other.left.red) && (other.right == null || !other.right.red) {
        ReddenSiblingRight(parent, other, z, t);
        z', t', h' := z.up, Fork(z.red, s.(red := true), parent, t), if z.red then h else h + 1;
        LookDown(z', t');
        n, parent', done := parent, parent.parent, false;
      } else {
        BorrowLeftSibling(parent, other, z, t);
        ghost var g := BorrowLeft(z.red, s, parent, t);
        RiseToTop(z.up, g);
        PlugFork(z.up, g);
        z', t', h' := Top, Plug(z.up, g), h;
        n, parent', done := node, null, true;
      }
    }

    lemma LookAtNephews(z: Path, t: Tree)
      requires Holds(z, t) && !z.Top?
      ensures
        var s := if z.InLeft? then z.right else z.left;
        && (s.Fork? ==> s.node.left == Root(s.left) && s.node.right == Root(s.right))
        && (s.Fork? && s.left.Fork? ==> s.left.node.red == s.left.red)
        && (s.Fork? && s.right.Fork? ==> s.right.node.red == s.right.red)
    {
      Rise(z, t);
      var s := if z.InLeft? then z.right else z.left;
      if s.Fork? {
        Sink(z.up, Joined(z, t));
        LookDown(if z.InLeft? then InRight(z.up, z.red, t, z.node) else InLeft(z.up, z.red, z.node, t), s);
      }
    }

    lemma LookAtSide(z: Path, t: Tree, h: nat)
      requires Holds(z, t) && !z.Top? && RbPath(z, false, h + 1)
      ensures z.node.left == Root(t) <==> z.InLeft?
    {
      Rise(z, t);
      LookDown(z.up, Joined(z, t));
    }

    lemma AtTop(z: Path, t: Tree)
      requires Holds(z, t)
      ensures node == Root(t) <==> z.Top?
    {
      if !z.Top? {
        TopNodeOutside(z, Root(t));
      }
    }

    /** A round of `__rb_erase_color` */
    method EraseRound(n: RbNode?, parent: RbNode, ghost z: Path, ghost t: Tree, ghost h: nat)
      returns (n': RbNode?, parent': RbNode?, done: bool, ghost z': Path, ghost t': Tree, ghost h': nat)
      requires Holds(z, t) && !z.Top? && Root(t) == n && z.node == parent
      requires !IsRed(t) && RbBelow(t, h) && RbPath(z, false, h + 1)
      modifies this, mem.Keys`left, mem.Keys`right, mem.Keys`parent, mem.Keys`red
      ensures mem.Keys == old(mem.Keys) && Holds(z', t') && Root(t') == n' && t'.Fork?
      ensures n' == node <==> z'.Top?
      ensures !done ==> Above(z') == parent' && RbBelow(t', h') && RbPath(z', false, h' + 1)
      ensures !done ==> EraseFix(z', t') == EraseFix(z, t) && EraseMeasure(z', t') < EraseMeasure(z, t)
      ensures done ==> z'.Top? && Blacken(t') == EraseFix(z, t)
    {
      hide EraseFix, RbBelow, RbPath, EraseMeasure, Blacken;
      LookAtSide(z, t, h);
      if parent.left == n {
        n', parent', done, z', t', h' := EraseRoundLeft(parent, z, t, h);
      } else {
        n', parent', done, z', t', h' := EraseRoundRight(parent, z, t, h);
      }
      AtTop(z', t');
    }

    /** `__rb_erase_color` */
    method EraseColor(child: RbNode?, parent0: RbNode?, ghost z0: Path, ghost t0: Tree, ghost h0: nat)
      requires Holds(z0, t0) && Root(t0) == child && Above(z0) == parent0
      requires RbBelow(t0, h0) && RbPath(z0, false, h0 + 1)
      modifies this, mem.Keys`left, mem.Keys`right, mem.Keys`parent, mem.Keys`red
      ensures Holds(Top, EraseFix(z0, t0)) && mem.Keys == old(mem.Keys)
    {
      hide EraseFix, RbBelow, RbPath, EraseMeasure, Blacken, Plug;
      var n, parent := child, parent0;
      ghost var z, t, h := z0, t0, h0;
      AtTop(z, t);
      ColourOf(z, t);
      var done := false;
      while !done && (n == null || !n.red) && n != node
        invariant Holds(z, t) && Root(t) == n && mem.Keys == old(mem.Keys)
        invariant n != null ==> n in mem && n.red == t.red
        invariant n == node <==> z.Top?
        invariant !done ==> Above(z) == parent && RbBelow(t, h) && RbPath(z, false, h + 1)
        invariant !done ==> EraseFix(z, t) == EraseFix(z0, t0)
        invariant done ==> z.Top? && Blacken(t) == EraseFix(z0, t0)
        decreases !done, EraseMeasure(z, t)
      {
        n, parent, done, z, t, h := EraseRound(n, parent, z, t, h);
        ColourOf(z, t);
      }
      EraseEnds(z, t);
      EraseFinish(n, z, t);
    }

    lemma ColourOf(z: Path, t: Tree)
      requires Holds(z, t)
      ensures t.Fork? ==> t.node in mem && t.node.red == t.red
    {
      if t.Fork? {
        LookDown(z, t);
      }
    }

    /** `if (node) node->rb_color = RB_BLACK`, at the end of `__rb_erase_color` */
    method EraseFinish(n: RbNode?, ghost z: Path, ghost t: Tree)
      requires Holds(z, t) && Root(t) == n
      modifies this, mem.Keys`left, mem.Keys`right, mem.Keys`parent, mem.Keys`red
      ensures Holds(Top, Plug(z, Blacken(t))) && mem.Keys == old(mem.Keys)
    {
      hide Plug;
      RiseToTop(z, t);
      if n != null {
        Colour(n, false, z, t);
        RiseToTop(z, Blacken(t));
      }
    }

    /** The stores of `rb_erase` for a node `n` with at most one child, `child`. */
    method StoreSpliceOne(n: RbNode, child: RbNode?, parent: RbNode?)
      requires Synced() && (child != null ==> child in mem) && (parent != null ==> parent in mem)
      modifies this, mem.Keys`left, mem.Keys`right, mem.Keys`parent
      ensures Synced() && mem == SpliceOne(old(mem), n, child, parent) && mem.Keys == old(mem.Keys)
      ensures node == if parent == null then child else old(node)
    {
      if child != null {
        SetParent(child, parent);
      }
      SetChild(parent, n, child);
    }

    /** `rb_erase` for a node with at most one child. */
    method TakeOutOne(n: RbNode, child: RbNode?, ghost z: Path, ghost t: Tree) returns (parent: RbNode?, red: bool)
      requires Holds(z, t) && Root(t) == n
      requires (t.left.Leaf? && child == Root(t.right)) || (t.right.Leaf? && child == Root(t.left))
      modifies this, mem.Keys`left, mem.Keys`right, mem.Keys`parent
      ensures mem.Keys == old(mem.Keys) && parent == Above(z) && red == t.red
      ensures Holds(z, if t.left.Leaf? then t.right else t.left)
    {
      ghost var u := if t.left.Leaf? then t.right else t.left;
      LookUp(z, t);
      LookDown(z, t);
      assert Linked(mem, u, n) && Ordered(u, Lo(z), Hi(z)) by {
        OrderedWiden(t.left, Lo(z), n.msecs, Lo(z), Hi(z));
        OrderedWiden(t.right, n.msecs, Hi(z), Lo(z), Hi(z));
      }
      SpliceOneAt(mem, z, n, u);
      parent := n.parent;
      red := n.red;
      StoreSpliceOne(n, child, parent);
    }

    /** The stores of `rb_erase` for a node `x` with two children, where `s` is its successor. */
    method StoreSpliceTwo(x: RbNode, s: RbNode) returns (child: RbNode?, parent: RbNode, red: bool)
      requires Synced() && x in mem && s in mem && s != x && s.parent != null && s.parent != s && s.right != s
      requires forall k: RbNode? :: k in [x.parent, x.left, x.right, s.parent, s.right] && k != null ==> k in mem
      requires x.left != null && x.right != null && x.parent != s
      modifies this, mem.Keys`left, mem.Keys`right, mem.Keys`parent, mem.Keys`red
      ensures Synced() && mem == SpliceTwo(old(mem), x, s)
      ensures node == if old(x.parent) == null then s else old(node)
      ensures child == old(s.right) && red == old(s.red)
      ensures parent == if old(s.parent) == x then s else old(s.parent)
    {
      var up, colour, left, right := x.parent, x.red, x.left, x.right;
      SetChild(up, x, s);
      child := s.right;
      parent := s.parent;
      red := s.red;
      StoreUnhook(x, s, right, parent, child);
      if parent == x {
        parent := s;
      }
      StoreReplace(s, up, colour, left);
    }

    /** Takes `s` away from its parent `q`, unless that is `x`. */
    method StoreUnhook(x: RbNode, s: RbNode, r: RbNode, q: RbNode, child: RbNode?)
      requires Synced() && x in mem && s in mem && r in mem && q in mem && (child != null ==> child in mem)
      modifies this`mem, mem.Keys`left, mem.Keys`right, mem.Keys`parent
      ensures Synced() && mem == Unhook(old(mem), x, s, r, q, child) && mem.Keys == old(mem.Keys)
    {
      if q != x {
        if child != null {
          SetParent(child, q);
        }
        SetLeft(q, child);
        SetRight(s, r);
        SetParent(r, s);
      }
    }

    /** Gives `s` the parent, the colour and the left child of the node it replaces. */
    method StoreReplace(s: RbNode, up: RbNode?, red: bool, left: RbNode)
      requires Synced() && s in mem && left in mem
      modifies this`mem, mem.Keys`left, mem.Keys`parent, mem.Keys`red
      ensures Synced() && mem.Keys == old(mem.Keys)
      ensures mem == PutParent(PutLeft(PutRed(PutParent(old(mem), s, up), s, red), s, left), left, s)
    {
      SetParent(s, up);
      assert mem.Keys == old(mem.Keys);
      SetRed(s, red);
      assert mem.Keys == old(mem.Keys);
      SetLeft(s, left);
      assert mem.Keys == old(mem.Keys);
      SetParent(left, s);
    }

    /** `rb_erase` for a node with two children: its successor takes its place. */
    method TakeOutTwo(n: RbNode, ghost z: Path, ghost t: Tree) returns (child: RbNode?, parent: RbNode?, red: bool)
      requires Holds(z, t) && Root(t) == n && t.left.Fork? && t.right.Fork?
      modifies this, mem.Keys`left, mem.Keys`right, mem.Keys`parent, mem.Keys`red
      ensures mem.Keys == old(mem.Keys)
      ensures
        var m := MinTree(t.right);
        var w := MinPath(InRight(z, t.red, t.left, m.node), t.right);
        Holds(w, m.right) && child == Root(m.right) && parent == Above(w) && red == m.red
    {
      ghost var m := MinTree(t.right);
      var s := Successor(n, this, z, t);
      SpliceTwoReady(mem, z, t);
      SpliceTwoAt(mem, z, t);
      MinCell(mem, t.right, n, n.msecs, Hi(z));
      SpliceTwoKeys(mem, n, s);
      child, parent, red := StoreSpliceTwo(n, s);
      ghost var base := InRight(z, t.red, t.left, s);
      Descend(mem, z, Fork(t.red, t.left, s, DropMin(t.right)));
      DescendToMin(mem, base, t.right);
      AboveMin(base, t.right);
    }

    /** The walk to the leftmost node of the right subtree. */
    static method Successor(n: RbNode, ghost root: RbRoot, ghost z: Path, ghost t: Tree) returns (s: RbNode)
      requires root.Holds(z, t) && Root(t) == n && t.right.Fork?
      ensures s == MinTree(t.right).node
    {
      ghost var w, u := InRight(z, t.red, t.left, n), t.right;
      root.LookDown(z, t);
      root.Sink(z, t);
      s := n.right;
      root.LookDown(w, u);
      var left := s.left;
      while left != null
        invariant root.Holds(w, u) && Root(u) == s && left == Root(u.left) && MinTree(u) == MinTree(t.right)
        decreases u
      {
        root.Sink(w, u);
        w, u := InLeft(w, u.red, u.node, u.right), u.left;
        root.LookDown(w, u);
        s := left;
        left := s.left;
      }
    }

    /** `rb_erase`, knowing where `n` is. */
    method EraseFocused(n: RbNode, ghost z: Path, ghost t: Tree)
      requires Holds(z, t) && Root(t) == n && Balanced(Plug(z, t))
      modifies this, mem.Keys`left, mem.Keys`right, mem.Keys`parent, mem.Keys`red
      ensures mem.Keys == old(mem.Keys) && Holds(Top, EraseAt(z, t.red, t.left, t.right))
    {
      var child, parent, red;
      ghost var h := EraseReady(z, t);
      ghost var w, u := z, if t.left.Leaf? then t.right else t.left;
      LookDown(z, t);
      if n.left == null {
        child := n.right;
        parent, red := TakeOutOne(n, child, z, t);
      } else if n.right == null {
        child := n.left;
        parent, red := TakeOutOne(n, child, z, t);
      } else {
        ghost var m := MinTree(t.right);
        w, u := MinPath(InRight(z, t.red, t.left, m.node), t.right), m.right;
        child, parent, red := TakeOutTwo(n, z, t);
      }
      if !red {
        EraseColor(child, parent, w, u, h);
      } else {
        RiseToTop(w, u);
      }
    }

    // ---------- whole operations ----------

    lemma {:induction false} SinkTo(z: Path, t: Tree, k: Msecs)
      requires Holds(z, t)
      ensures Holds(Seek(z, t, k).0, Seek(z, t, k).1)
      decreases t
    {
      if t.Fork? && t.node.msecs != k {
        Sink(z, t);
        if k < t.node.msecs {
          SinkTo(InLeft(z, t.red, t.node, t.right), t.left, k);
        } else {
          SinkTo(InRight(z, t.red, t.left, t.node), t.right, k);
        }
      }
    }

    /** `rb_erase` */
    method Erase(n: RbNode)
      requires Valid() && n in NodeSet(tree)
      modifies this, mem.Keys`left, mem.Keys`right, mem.Keys`parent, mem.Keys`red
      ensures Valid() && tree == Erased(old(tree), n)
    {
      ghost var (z, t) := Seek(Top, tree, n.msecs);
      SinkTo(Top, tree, n.msecs);
      SeekPlug(Top, tree, n.msecs);
      SeekFinds(Top, tree, n.msecs);
      ErasedSound(tree, n);
      OneMoreSet(Inorder(Erased(tree, n)), n, Inorder(tree));
      ghost var after := Erased(tree, n);
      EraseFocused(n, z, t);
      Adopt(after);
    }

    /** From here on `t` is the tree, and other nodes are forgotten. */
    ghost method Adopt(t: Tree)
      requires Holds(Top, t) && Sound(t) && NodeSet(t) <= mem.Keys
      modifies this`mem, this`tree
      ensures Valid() && tree == t
    {
      ghost var m := mem;
      tree, mem := t, map k | k in m && k in NodeSet(t) :: m[k];
      LinkedOn(m, mem, t, null);
    }

    /** `rb_link_node`: the link to the empty hole of `z` leads to `n`. */
    method Link(n: RbNode, parent: RbNode?, asLeft: bool, ghost z: Path)
      requires Holds(z, Leaf) && n !in mem && Lo(z) < n.msecs < Hi(z)
      requires parent == Above(z) && (parent != null ==> asLeft == z.InLeft?)
      modifies this, n`parent, n`red, n`left, n`right, mem.Keys`left, mem.Keys`right
      ensures Holds(z, Fork(true, Leaf, n, Leaf)) && mem.Keys == old(mem.Keys) + {n} && tree == old(tree)
    {
      ghost var m := mem;
      Prepare(n, parent);
      if parent == null {
        node := n;
      } else if asLeft {
        SetLeft(parent, n);
      } else {
        SetRight(parent, n);
      }
      LinkedNew(m, mem, z, n);
    }

    method Prepare(n: RbNode, parent: RbNode?)
      requires Synced() && n !in mem
      modifies this`mem, n`parent, n`red, n`left, n`right
      ensures Synced() && mem == old(mem)[n := Cell(parent, true, null, null)]
    {
      n.parent := parent;
      n.red := true;
      n.left, n.right := null, null;
      mem := mem[n := Cell(parent, true, null, null)];
    }

    /** `rb_search` of src/memqueue_expiry.c */
    method Search(msecs: Msecs) returns (data: RbNode?, ghost steps: nat)
      requires Valid()
      ensures data != null ==> data in NodeSet(tree) && data.msecs == msecs
      ensures data == null ==> forall n :: n in NodeSet(tree) ==> n.msecs != msecs
      ensures Logarithmic(steps, |Inorder(tree)|)
    {
      hide Logarithmic;
      ghost var z, t := Top, tree;
      var n := node;
      steps := 0;
      SeekFinds(Top, tree, msecs);
      SeekPlug(Top, tree, msecs);
      InorderPlug(Seek(Top, tree, msecs).0, Seek(Top, tree, msecs).1);
      while n != null
        invariant Holds(z, t) && n == Root(t)
        invariant Seek(z, t, msecs) == Seek(Top, tree, msecs)
        invariant steps + Height(t) <= Height(tree)
        decreases t
      {
        LookDown(z, t);
        Sink(z, t);
        data := n;
        steps := steps + 1;
        if msecs < data.msecs {
          n := n.left;
          z, t := InLeft(z, t.red, t.node, t.right), t.left;
        } else if msecs > data.msecs {
          n := n.right;
          z, t := InRight(z, t.red, t.left, t.node), t.right;
        } else {
          break;
        }
      }
      StepsBound(tree, steps);
      if n == null {
        data := null;
      }
    }

    /** `rb_insert` of src/memqueue_expiry.c */
    method Insert(data: RbNode) returns (ghost steps: nat)
      requires Valid() && forall n :: n in NodeSet(tree) ==> n.msecs != data.msecs
      modifies this, mem.Keys`left, mem.Keys`right, mem.Keys`parent, mem.Keys`red
      modifies data`left, data`right, data`parent, data`red
      ensures Valid() && tree == Inserted(old(tree), data)
      ensures Logarithmic(steps, |Inorder(old(tree))|)
    {
      steps := 0;
      ghost var z, t := Top, tree;
      var parent: RbNode?, asLeft, new_ := null, false, node;
      SeekFinds(Top, tree, data.msecs);
      SeekPlug(Top, tree, data.msecs);
      while new_ != null
        invariant Holds(z, t) && new_ == Root(t) && parent == Above(z) && (parent != null ==> asLeft == z.InLeft?)
        invariant Seek(z, t, data.msecs) == Seek(Top, tree, data.msecs)
        invariant steps + Height(t) <= Height(tree)
        decreases t
        modifies {}
      {
        LookDown(z, t);
        Sink(z, t);
        parent := new_;
        steps := steps + 1;
        if parent.msecs > data.msecs {
          new_, asLeft := parent.left, true;
          z, t := InLeft(z, t.red, t.node, t.right), t.left;
        } else if parent.msecs < data.msecs {
          new_, asLeft := parent.right, false;
          z, t := InRight(z, t.red, t.left, t.node), t.right;
        } else {
          assert false;
        }
      }
      StepsBound(tree, steps);
      LinkAndColour(data, parent, asLeft, z);
    }

    /** The end of `rb_insert`, once the place of `data` is known. */
    method LinkAndColour(data: RbNode, parent: RbNode?, asLeft: bool, ghost z: Path)
      requires Valid() && (forall n :: n in NodeSet(tree) ==> n.msecs != data.msecs)
      requires Seek(Top, tree, data.msecs) == (z, Leaf)
      requires parent == Above(z) && (parent != null ==> asLeft == z.InLeft?)
      modifies this, mem.Keys`left, mem.Keys`right, mem.Keys`parent, mem.Keys`red
      modifies data`left, data`right, data`parent, data`red
      ensures Valid() && tree == Inserted(old(tree), data)
    {
      ghost var after := Inserted(tree, data);
      InsertedSound(tree, data);
      OneMoreSet(Inorder(tree), data, Inorder(after));
      SeekFinds(Top, tree, data.msecs);
      SeekPlug(Top, tree, data.msecs);
      SinkTo(Top, tree, data.msecs);
      BalancedFocus(z, Leaf);
      RbPathWeaken(z, false, 0);
      Link(data, parent, asLeft, z);
      InsertColor(data, z, Fork(true, Leaf, data, Leaf), 0);
      Adopt(after);
    }
  }

  /** Decreases in every round of `__rb_erase_color`: a red subtree ends the loop. */
  function EraseMeasure(z: Path, t: Tree): nat {
    if IsRed(t) then 0 else 1 + Depth(z)
  }

  lemma InsertEnds(z: Path, t: Tree)
    requires z.Top? || !z.red
    ensures InsertFix(z, t) == Blacken(Plug(z, t))
  {
  }

  lemma EraseEnds(z: Path, t: Tree)
    ensures IsRed(t) || z.Top? ==> EraseFix(z, t) == Plug(z, Blacken(t))
    ensures z.Top? ==> Plug(z, Blacken(t)) == Blacken(t)
  {
  }

  lemma {:induction false} TopNodeOutside(z: Path, sub: RbNode?)
    requires OrderedUp(z) && !z.Top? && (sub != null ==> Lo(z) < sub.msecs < Hi(z))
    ensures TopNode(z, sub) != null && !(Lo(z) < TopNode(z, sub).msecs < Hi(z))
    decreases z
  {
    if !z.up.Top? {
      TopNodeOutside(z.up, z.node);
    }
  }

  lemma {:induction false} PlugFork(z: Path, t: Tree)
    requires t.Fork?
    ensures Plug(z, t).Fork?
    decreases z
  {
    if !z.Top? {
      PlugFork(z.up, Joined(z, t));
    }
  }
}
