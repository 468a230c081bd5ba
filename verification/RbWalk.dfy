/** Stepping through a tree in order: `rb_last`, `rb_next` and `rb_prev` of src/rbtree.c. */
module RbWalk {
  import opened RbShape
  import opened RbErasure
  import opened RbMemory
  import opened RbSeek
  import opened RbTree

  /** `r` comes right after position `i` of `s`, where `n` is; null if nothing does. */
  predicate NextAt(s: seq<RbNode>, i: int, n: RbNode, r: RbNode?) {
    0 <= i < |s| && s[i] == n && r == if i + 1 < |s| then s[i + 1] else null
  }

  predicate PrevAt(s: seq<RbNode>, i: int, n: RbNode, r: RbNode?) {
    0 <= i < |s| && s[i] == n && r == if i > 0 then s[i - 1] else null
  }

  ghost predicate IsNext(s: seq<RbNode>, n: RbNode, r: RbNode?) {
    exists i :: NextAt(s, i, n, r)
  }

  ghost predicate IsPrev(s: seq<RbNode>, n: RbNode, r: RbNode?) {
    exists i :: PrevAt(s, i, n, r)
  }

  /** Each of the two steps undoes the other. */
  lemma {:induction false} StepsAreInverse(s: seq<RbNode>, a: RbNode, b: RbNode)
    ensures IsNext(s, a, b) <==> IsPrev(s, b, a)
  {
    if IsNext(s, a, b) {
      var i :| NextAt(s, i, a, b);
      assert PrevAt(s, i + 1, b, a);
    }
    if IsPrev(s, b, a) {
      var i :| PrevAt(s, i, b, a);
      assert NextAt(s, i - 1, a, b);
    }
  }

  /** Steps are determined: there is one next node and one previous node. */
  lemma {:induction false} StepsAreUnique(s: seq<RbNode>, n: RbNode, r: RbNode?, r': RbNode?)
    requires Ascending(s)
    ensures IsNext(s, n, r) && IsNext(s, n, r') ==> r == r'
    ensures IsPrev(s, n, r) && IsPrev(s, n, r') ==> r == r'
  {
    assert forall i, j :: 0 <= i < |s| && 0 <= j < |s| && s[i] == n && s[j] == n ==> i == j;
  }

  /** A walk that starts at the last node and steps back until nothing is left has visited
      the whole tree in descending order. */
  lemma {:induction false} PrevWalkIsComplete(s: seq<RbNode>, walk: seq<RbNode>)
    requires Ascending(s) && |s| > 0 && |walk| > 0
    requires walk[0] == s[|s| - 1] && IsPrev(s, walk[|walk| - 1], null)
    requires forall k :: 0 < k < |walk| ==> IsPrev(s, walk[k - 1], walk[k])
    ensures |walk| == |s| && forall k :: 0 <= k < |walk| ==> walk[k] == s[|s| - 1 - k]
  {
    var k := 0;
    while k + 1 < |walk|
      invariant 0 <= k < |walk| && k < |s|
      invariant forall i :: 0 <= i <= k ==> walk[i] == s[|s| - 1 - i]
    {
      var i :| PrevAt(s, i, walk[k], walk[k + 1]);
      assert i == |s| - 1 - k;
      k := k + 1;
    }
    var i :| PrevAt(s, i, walk[k], null);
    assert i == |s| - 1 - k;
  }

  // ---------- the ends of a tree ----------

  function MaxTree(t: Tree): (m: Tree)
    requires t.Fork?
    ensures m.Fork? && m.right.Leaf?
  {
    if t.right.Leaf? then t else MaxTree(t.right)
  }

  lemma {:induction false} MaxIsLast(t: Tree)
    requires t.Fork?
    ensures |Inorder(t)| > 0 && Inorder(t)[|Inorder(t)| - 1] == MaxTree(t).node
  {
    if t.right.Fork? {
      MaxIsLast(t.right);
    }
  }

  lemma {:induction false} MinIsFirst(t: Tree)
    requires t.Fork?
    ensures |Inorder(t)| > 0 && Inorder(t)[0] == MinTree(t).node
  {
    MinInorder(Top, t);
  }

  /** `rb_last` */
  method Last(root: RbRoot) returns (n: RbNode?)
    requires root.Valid()
    ensures root.tree.Leaf? ==> n == null
    ensures root.tree.Fork? ==> |Inorder(root.tree)| > 0 && n == Inorder(root.tree)[|Inorder(root.tree)| - 1]
  {
    n := root.node;
    if n == null {
      return null;
    }
    ghost var z, t := Top, root.tree;
    MaxIsLast(t);
    root.LookDown(z, t);
    while n.right != null
      invariant n != null && root.Holds(z, t) && n == Root(t) && n.right == Root(t.right)
      invariant MaxTree(t) == MaxTree(root.tree)
      decreases t
    {
      root.Sink(z, t);
      z, t := InRight(z, t.red, t.left, t.node), t.right;
      root.LookDown(z, t);
      n := n.right;
    }
  }

  /** Opens the tree at one of its nodes. */
  lemma Focus(root: RbRoot, n: RbNode) returns (z: Path, t: Tree)
    requires root.Valid() && n in NodeSet(root.tree)
    ensures root.Holds(z, t) && Root(t) == n
    ensures Inorder(root.tree) == Before(z) + Inorder(t) + After(z)
  {
    var f := Seek(Top, root.tree, n.msecs);
    z, t := f.0, f.1;
    root.SinkTo(Top, root.tree, n.msecs);
    SeekPlug(Top, root.tree, n.msecs);
    SeekFinds(Top, root.tree, n.msecs);
    InorderPlug(z, t);
  }

  lemma RightSide(root: RbRoot, z: Path, t: Tree)
    requires root.Holds(z, t) && t.Fork?
    ensures !z.Top? ==> (z.node.right == t.node <==> z.InRight?)
    ensures !z.Top? ==> (z.node.left == t.node <==> z.InLeft?)
  {
    if !z.Top? {
      root.Rise(z, t);
      root.LookDown(z.up, Joined(z, t));
    }
  }

  function First(s: seq<RbNode>): RbNode? {
    if s == [] then null else s[0]
  }

  /** Where the next node is, seen from the focus. */
  lemma {:induction false} NextFromFocus(s: seq<RbNode>, z: Path, t: Tree)
    requires t.Fork? && s == Before(z) + Inorder(t) + After(z)
    ensures IsNext(s, t.node, if t.right.Fork? then MinTree(t.right).node else First(After(z)))
  {
    var i := |Before(z) + Inorder(t.left)|;
    var before, after := Before(z) + Inorder(t.left), Inorder(t.right) + After(z);
    assert s == before + [t.node] + after && s[i] == t.node;
    if t.right.Fork? {
      MinIsFirst(t.right);
      assert after[0] == MinTree(t.right).node;
    } else {
      assert after == After(z);
    }
    var r := First(after);
    assert NextAt(s, i, t.node, r);
  }

  /** `rb_next`; a node that points to itself as its parent is in no tree. */
  method Next(node: RbNode, ghost root: RbRoot) returns (r: RbNode?)
    requires node.parent == node || (root.Valid() && node in NodeSet(root.tree))
    ensures node.parent == node ==> r == null
    ensures node.parent != node ==> IsNext(Inorder(root.tree), node, r)
  {
    if node.parent == node {
      return null;
    }
    ghost var z, t := Focus(root, node);
    NextFromFocus(Inorder(root.tree), z, t);
    root.LookDown(z, t);
    if node.right != null {
      r := RbRoot.Successor(node, root, z, t);
    } else {
      r := ClimbNext(node, root, z, t);
    }
  }

  /** The climb to the first ancestor that has `node` on its left. */
  method ClimbNext(node: RbNode, ghost root: RbRoot, ghost z: Path, ghost t: Tree) returns (parent: RbNode?)
    requires root.Holds(z, t) && Root(t) == node
    ensures parent == First(After(z))
  {
    ghost var w, u := z, t;
    var n := node;
    root.LookDown(w, u);
    RightSide(root, w, u);
    parent := n.parent;
    while parent != null && n == parent.right
      invariant root.Holds(w, u) && Root(u) == n && parent == Above(w)
      invariant !w.Top? ==> (parent.right == n <==> w.InRight?)
      invariant After(w) == After(z)
      decreases w
    {
      root.Rise(w, u);
      w, u := w.up, Joined(w, u);
      n := parent;
      root.LookDown(w, u);
      RightSide(root, w, u);
      parent := n.parent;
    }
  }

  function Final(s: seq<RbNode>): RbNode? {
    if s == [] then null else s[|s| - 1]
  }

  /** Where the previous node is, seen from the focus. */
  lemma {:induction false} PrevFromFocus(s: seq<RbNode>, z: Path, t: Tree)
    requires t.Fork? && s == Before(z) + Inorder(t) + After(z)
    ensures IsPrev(s, t.node, if t.left.Fork? then MaxTree(t.left).node else Final(Before(z)))
  {
    var i := |Before(z) + Inorder(t.left)|;
    var before, after := Before(z) + Inorder(t.left), Inorder(t.right) + After(z);
    assert s == before + [t.node] + after && s[i] == t.node;
    if t.left.Fork? {
      MaxIsLast(t.left);
      assert before[|before| - 1] == MaxTree(t.left).node;
    } else {
      assert before == Before(z);
    }
    var r := Final(before);
    assert PrevAt(s, i, t.node, r);
  }

  /** `rb_prev` */
  method Prev(node: RbNode, ghost root: RbRoot) returns (r: RbNode?)
    requires node.parent == node || (root.Valid() && node in NodeSet(root.tree))
    ensures node.parent == node ==> r == null
    ensures node.parent != node ==> IsPrev(Inorder(root.tree), node, r)
  {
    if node.parent == node {
      return null;
    }
    ghost var z, t := Focus(root, node);
    PrevFromFocus(Inorder(root.tree), z, t);
    root.LookDown(z, t);
    if node.left != null {
      r := Predecessor(node, root, z, t);
    } else {
      r := ClimbPrev(node, root, z, t);
    }
  }

  /** The climb to the first ancestor that has `node` on its right. */
  method ClimbPrev(node: RbNode, ghost root: RbRoot, ghost z: Path, ghost t: Tree) returns (parent: RbNode?)
    requires root.Holds(z, t) && Root(t) == node
    ensures parent == Final(Before(z))
  {
    ghost var w, u := z, t;
    var n := node;
    root.LookDown(w, u);
    RightSide(root, w, u);
    parent := n.parent;
    while parent != null && n == parent.left
      invariant root.Holds(w, u) && Root(u) == n && parent == Above(w)
      invariant !w.Top? ==> (parent.left == n <==> w.InLeft?)
      invariant Before(w) == Before(z)
      decreases w
    {
      root.Rise(w, u);
      w, u := w.up, Joined(w, u);
      n := parent;
      root.LookDown(w, u);
      RightSide(root, w, u);
      parent := n.parent;
    }
  }

  /** The walk to the rightmost node of the left subtree. */
  method Predecessor(n: RbNode, ghost root: RbRoot, ghost z: Path, ghost t: Tree) returns (p: RbNode)
    requires root.Holds(z, t) && Root(t) == n && t.left.Fork?
    ensures p == MaxTree(t.left).node
  {
    ghost var w, u := InLeft(z, t.red, n, t.right), t.left;
    root.LookDown(z, t);
    root.Sink(z, t);
    p := n.left;
    root.LookDown(w, u);
    while p.right != null
      invariant root.Holds(w, u) && Root(u) == p && p.right == Root(u.right) && MaxTree(u) == MaxTree(t.left)
      decreases u
    {
      root.Sink(w, u);
      w, u := InRight(w, u.red, u.left, u.node), u.right;
      root.LookDown(w, u);
      p := p.right;
    }
  }
}
