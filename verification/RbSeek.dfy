/** Searching an ordered red-black tree, and the effect of a whole insertion or erasure on it. */
module RbSeek {
  import opened RbShape
  import opened RbInsertion
  import opened RbErasure

  /** The search for deadline `k` in the subtree `t` in the hole of `z`: where it ends. */
  function Seek(z: Path, t: Tree, k: Msecs): (Path, Tree)
    decreases t
  {
    if t.Leaf? || t.node.msecs == k then (z, t)
    else if k < t.node.msecs then Seek(InLeft(z, t.red, t.node, t.right), t.left, k)
    else Seek(InRight(z, t.red, t.left, t.node), t.right, k)
  }

  /** The nodes of a tree. */
  ghost function NodeSet(t: Tree): set<RbNode> {
    set n | n in Inorder(t)
  }

  /** The deadlines in `s` increase strictly. */
  predicate Ascending(s: seq<RbNode>) {
    forall i, j :: 0 <= i < j < |s| ==> s[i].msecs < s[j].msecs
  }

  predicate Within(s: seq<RbNode>, lo: int, hi: int) {
    forall n :: n in s ==> lo < n.msecs < hi
  }

  /** A whole tree that keeps all rules. */
  predicate Sound(t: Tree) {
    Balanced(t) && Ordered(t, -1, 0x1_0000_0000)
  }

  /** `s'` is `s` with `n` put in at one place. */
  ghost predicate OneMore(s: seq<RbNode>, n: RbNode, s': seq<RbNode>) {
    exists i :: 0 <= i <= |s| && s' == s[..i] + [n] + s[i..]
  }

  lemma OneMoreSet(s: seq<RbNode>, n: RbNode, s': seq<RbNode>)
    requires OneMore(s, n, s')
    ensures (set x | x in s') == (set x | x in s) + {n}
    ensures |s'| == |s| + 1
    ensures Ascending(s') ==> n !in s
  {
    var i :| 0 <= i <= |s| && s' == s[..i] + [n] + s[i..];
    assert s == s[..i] + s[i..];
    assert s'[i] == n;
    if Ascending(s') {
      forall j | 0 <= j < |s|
        ensures s[j] != n
      {
        assert s[j] == s'[if j < i then j else j + 1];
      }
    }
  }

  lemma {:induction false} OrderedAscending(t: Tree, lo: int, hi: int)
    ensures Ordered(t, lo, hi) <==> Ascending(Inorder(t)) && Within(Inorder(t), lo, hi)
  {
    match t
    case Leaf =>
    case Fork(_, l, n, r) =>
      OrderedAscending(l, lo, n.msecs);
      OrderedAscending(r, n.msecs, hi);
      if Ordered(t, lo, hi) {
        AscendingJoin(Inorder(l), n, Inorder(r), lo, hi);
      } else if Ascending(Inorder(t)) && Within(Inorder(t), lo, hi) {
        AscendingSplit(Inorder(l), n, Inorder(r), lo, hi);
      }
  }

  lemma AscendingJoin(a: seq<RbNode>, n: RbNode, b: seq<RbNode>, lo: int, hi: int)
    requires Ascending(a) && Ascending(b) && lo < n.msecs < hi
    requires Within(a, lo, n.msecs) && Within(b, n.msecs, hi)
    ensures Ascending(a + [n] + b) && Within(a + [n] + b, lo, hi)
  {
  }

  lemma AscendingSplit(a: seq<RbNode>, n: RbNode, b: seq<RbNode>, lo: int, hi: int)
    requires Ascending(a + [n] + b) && Within(a + [n] + b, lo, hi)
    ensures Ascending(a) && Ascending(b) && lo < n.msecs < hi
    ensures Within(a, lo, n.msecs) && Within(b, n.msecs, hi)
  {
    var s := a + [n] + b;
    assert s[|a|] == n && n in s;
    forall i | 0 <= i < |a|
      ensures s[i] == a[i] && a[i] in s && lo < a[i].msecs < n.msecs
    {
    }
    forall i | 0 <= i < |b|
      ensures s[|a| + 1 + i] == b[i] && b[i] in s && n.msecs < b[i].msecs < hi
    {
    }
    forall i, j | 0 <= i < j < |b|
      ensures b[i].msecs < b[j].msecs
    {
      assert s[|a| + 1 + i].msecs < s[|a| + 1 + j].msecs;
    }
  }

  lemma {:induction false} SeekPlug(z: Path, t: Tree, k: Msecs)
    ensures Plug(Seek(z, t, k).0, Seek(z, t, k).1) == Plug(z, t)
    ensures Seek(z, t, k).1.Fork? ==> Seek(z, t, k).1.node.msecs == k
    decreases t
  {
    if t.Fork? && t.node.msecs != k {
      if k < t.node.msecs {
        SeekPlug(InLeft(z, t.red, t.node, t.right), t.left, k);
      } else {
        SeekPlug(InRight(z, t.red, t.left, t.node), t.right, k);
      }
    }
  }

  /** A search in an ordered tree ends between the deadlines around `k`, and at a node if `k` is there. */
  lemma {:induction false} SeekFinds(z: Path, t: Tree, k: Msecs)
    requires Ordered(t, Lo(z), Hi(z)) && OrderedUp(z) && Lo(z) < k < Hi(z)
    ensures
      var (z', t') := Seek(z, t, k);
      && Ordered(t', Lo(z'), Hi(z')) && OrderedUp(z') && Lo(z') < k < Hi(z')
      && forall n :: n in Inorder(t) && n.msecs == k ==> t'.Fork? && t'.node == n
    decreases t
  {
    if t.Fork? {
      OrderedAscending(t.left, Lo(z), t.node.msecs);
      OrderedAscending(t.right, t.node.msecs, Hi(z));
      if k < t.node.msecs {
        SeekFinds(InLeft(z, t.red, t.node, t.right), t.left, k);
      } else if k > t.node.msecs {
        SeekFinds(InRight(z, t.red, t.left, t.node), t.right, k);
      }
    }
  }

  /** `rb_insert`: `n` is linked in where the search for its deadline ends, then rebalanced. */
  function Inserted(t: Tree, n: RbNode): Tree {
    InsertFix(Seek(Top, t, n.msecs).0, Fork(true, Leaf, n, Leaf))
  }

  /** `rb_erase` of the node with the deadline of `n`. */
  function Erased(t: Tree, n: RbNode): Tree {
    var (z, u) := Seek(Top, t, n.msecs);
    if u.Leaf? then t else EraseAt(z, u.red, u.left, u.right)
  }

  /** Inserting a fresh deadline keeps all rules and adds exactly that node. */
  lemma {:induction false} InsertedSound(t: Tree, n: RbNode)
    requires Sound(t) && forall x :: x in Inorder(t) ==> x.msecs != n.msecs
    ensures Sound(Inserted(t, n))
    ensures OneMore(Inorder(t), n, Inorder(Inserted(t, n)))
  {
    var (z, u) := Seek(Top, t, n.msecs);
    SeekPlug(Top, t, n.msecs);
    SeekFinds(Top, t, n.msecs);
    InorderPlug(z, u);
    var x := Fork(true, Leaf, n, Leaf);
    BalancedFocus(z, u);
    RbPathWeaken(z, false, 0);
    InsertFixBalanced(z, x, 0);
    InsertFixInorder(z, x);
    InorderPlug(z, x);
    assert Inorder(x) == [n];
    var i := |Before(z)|;
    assert Inorder(t)[..i] == Before(z) && Inorder(t)[i..] == After(z);
    OrderedAscending(t, -1, 0x1_0000_0000);
    OrderedPlug(z, x);
    OrderedAscending(Plug(z, x), -1, 0x1_0000_0000);
    OrderedAscending(Inserted(t, n), -1, 0x1_0000_0000);
  }

  lemma {:induction false} OrderedPlug(z: Path, t: Tree)
    requires Ordered(t, Lo(z), Hi(z)) && OrderedUp(z)
    ensures Ordered(Plug(z, t), -1, 0x1_0000_0000)
    decreases z
  {
    match z
    case Top =>
    case InLeft(up, red, n, r) => OrderedPlug(up, Fork(red, t, n, r));
    case InRight(up, red, l, n) => OrderedPlug(up, Fork(red, l, n, t));
  }

  /** Erasing a node of a sound tree keeps all rules and removes exactly that node. */
  lemma {:induction false} ErasedSound(t: Tree, n: RbNode)
    requires Sound(t) && n in Inorder(t)
    ensures Sound(Erased(t, n))
    ensures OneMore(Inorder(Erased(t, n)), n, Inorder(t))
  {
    var (z, u) := Seek(Top, t, n.msecs);
    SeekPlug(Top, t, n.msecs);
    SeekFinds(Top, t, n.msecs);
    assert u.Fork? && u.node == n;
    EraseAtBalanced(z, u);
    EraseAtInorder(z, u.red, u.left, n, u.right);
    var a, b := Before(z) + Inorder(u.left), Inorder(u.right) + After(z);
    assert (a + b)[..|a|] == a && (a + b)[|a|..] == b;
    OrderedAscending(t, -1, 0x1_0000_0000);
    OrderedAscending(Erased(t, n), -1, 0x1_0000_0000);
    AscendingWithout(a, n, b);
  }

  lemma AscendingWithout(a: seq<RbNode>, n: RbNode, b: seq<RbNode>)
    requires Ascending(a + [n] + b)
    ensures Ascending(a + b)
  {
    var s, s' := a + [n] + b, a + b;
    forall i, j | 0 <= i < j < |s'|
      ensures s'[i].msecs < s'[j].msecs
    {
      assert s'[i] == s[if i < |a| then i else i + 1];
      assert s'[j] == s[if j < |a| then j else j + 1];
    }
  }
}
