/** The left spine of a red-black tree, and how deep a tree can be.

    `objs_expire` walks down the left spine and erases nodes on the way, so the tree
    rebalances under the walk.  `SpineSurvives` says why the walk is still sound: erasing a
    spine node leaves the chain of left children below it as it was.
  */
module RbSpine {
  import opened RbShape
  import opened RbErasure
  import opened RbSeek

  /** The nodes met by following left children from the root of `t`. */
  function Spine(t: Tree): seq<RbNode> {
    if t.Leaf? then [] else [t.node] + Spine(t.left)
  }

  /** `s` ends with `e`. */
  predicate EndsWith(s: seq<RbNode>, e: seq<RbNode>) {
    |e| <= |s| && s[|s| - |e|..] == e
  }

  /** The hole of `z` is on the left spine. */
  predicate OnSpine(z: Path) {
    z.Top? || (z.InLeft? && OnSpine(z.up))
  }

  /** `e` is a stretch of the left spine that ends it, and no rotation above the hole of `z` reaches it:
      either the hole is on the spine and `e` lies in `t`, or it hangs off to the right of a
      spine node whose left subtree holds `e`. */
  predicate Keeps(z: Path, t: Tree, e: seq<RbNode>)
    decreases z
  {
    if OnSpine(z) then EndsWith(Spine(t), e)
    else if z.InRight? && OnSpine(z.up) then EndsWith(Spine(z.left), e)
    else Keeps(z.up, Leaf, e)
  }

  lemma EndsWithMore(a: seq<RbNode>, s: seq<RbNode>, e: seq<RbNode>)
    requires EndsWith(s, e)
    ensures EndsWith(a + s, e)
  {
    assert (a + s)[|a + s| - |e|..] == s[|s| - |e|..];
  }

  lemma {:induction false} KeepsPlug(z: Path, t: Tree, e: seq<RbNode>)
    requires Keeps(z, t, e)
    ensures EndsWith(Spine(Plug(z, t)), e)
    decreases z
  {
    match z
    case Top =>
    case InLeft(up, c, n, r) =>
      if OnSpine(z) {
        EndsWithMore([n], Spine(t), e);
      }
      KeepsPlug(up, Fork(c, t, n, r), e);
    case InRight(up, c, l, n) =>
      if OnSpine(up) {
        EndsWithMore([n], Spine(l), e);
      }
      KeepsPlug(up, Fork(c, l, n, t), e);
  }

  lemma BorrowLeftKeeps(c: bool, s: Tree, p: RbNode, t: Tree, e: seq<RbNode>)
    requires s.Fork? && (IsRed(s.left) || IsRed(s.right)) && EndsWith(Spine(s), e)
    ensures EndsWith(Spine(BorrowLeft(c, s, p, t)), e)
  {
    if IsRed(s.left) {
      assert Spine(Blacken(s.left)) == Spine(s.left);
    } else {
      assert Spine(Fork(false, s.left, s.node, s.right.left)) == Spine(s);
      EndsWithMore([s.right.node], Spine(s), e);
    }
  }

  /** After a red left sibling has been rotated up, the rest happens to the right of it. */
  lemma {:induction false} RedSiblingKeeps(up: Path, s: Tree, p: RbNode, t: Tree, e: seq<RbNode>)
    requires OnSpine(up) && s.Fork? && EndsWith(Spine(s), e)
    ensures EndsWith(Spine(EraseStepRight(InRight(up, false, s.left, s.node), true, s.right, p, t)), e)
  {
    var b, z := s.right, InRight(up, false, s.left, s.node);
    if b.Leaf? {
      SpineOfTop(up, s, Fork(true, b, p, t), e);
    } else if !IsRed(b.left) && !IsRed(b.right) {
      SpineOfTop(up, s, Fork(false, b.(red := true), p, t), e);
      assert EraseStepRight(z, true, b, p, t) == EraseFix(z, Fork(true, b.(red := true), p, t));
    } else {
      SpineOfTop(up, s, BorrowLeft(true, b, p, t), e);
      assert EraseStepRight(z, true, b, p, t) == Blacken(Plug(z, BorrowLeft(true, b, p, t)));
    }
  }

  lemma {:induction false} SpineOfTop(up: Path, s: Tree, y: Tree, e: seq<RbNode>)
    requires OnSpine(up) && s.Fork? && EndsWith(Spine(s), e)
    ensures
      var whole := Plug(InRight(up, false, s.left, s.node), y);
      EndsWith(Spine(whole), e) && EndsWith(Spine(Blacken(whole)), e)
  {
    var s' := Fork(false, s.left, s.node, y);
    assert Spine(s') == Spine(s);
    KeepsPlug(up, s', e);
  }

  lemma {:induction false} EraseFixKeeps(z: Path, t: Tree, e: seq<RbNode>)
    requires Keeps(z, t, e)
    ensures EndsWith(Spine(EraseFix(z, t)), e)
    decreases !IsRed(t), z, 0
  {
    if IsRed(t) || z.Top? {
      KeepsPlug(z, Blacken(t), e);
    } else if z.InLeft? {
      var s := z.right;
      if IsRed(s) {
        assert OnSpine(InLeft(z.up, false, s.node, s.right)) == OnSpine(z.up);
        EraseStepLeftKeeps(InLeft(z.up, false, s.node, s.right), true, t, z.node, s.left, e);
      } else {
        EraseStepLeftKeeps(z.up, z.red, t, z.node, s, e);
      }
    } else {
      var s := z.left;
      if IsRed(s) && OnSpine(z.up) {
        RedSiblingKeeps(z.up, s, z.node, t, e);
      } else if IsRed(s) {
        EraseStepRightKeeps(InRight(z.up, false, s.left, s.node), true, s.right, z.node, t, e);
      } else {
        EraseStepRightKeeps(z.up, z.red, s, z.node, t, e);
      }
    }
  }

  lemma BorrowRightKeeps(c: bool, t: Tree, p: RbNode, s: Tree, e: seq<RbNode>)
    requires s.Fork? && (IsRed(s.left) || IsRed(s.right)) && EndsWith(Spine(t), e)
    ensures EndsWith(Spine(BorrowRight(c, t, p, s)), e)
  {
    var inner := Fork(false, t, p, if IsRed(s.right) then s.left else s.left.left);
    assert BorrowRight(c, t, p, s).left == inner;
    EndsWithMore([p], Spine(t), e);
    EndsWithMore([BorrowRight(c, t, p, s).node], Spine(inner), e);
  }

  lemma {:induction false} EraseStepLeftKeeps(up: Path, c: bool, t: Tree, p: RbNode, s: Tree, e: seq<RbNode>)
    requires Keeps(InLeft(up, c, p, s), t, e)
    ensures EndsWith(Spine(EraseStepLeft(up, c, t, p, s)), e)
    decreases !c, up, 1
  {
    if OnSpine(up) {
      EndsWithMore([p], Spine(t), e);
    }
    if s.Leaf? {
      KeepsPlug(up, Fork(c, t, p, s), e);
    } else if !IsRed(s.left) && !IsRed(s.right) {
      EraseFixKeeps(up, Fork(c, t, p, s.(red := true)), e);
    } else {
      if OnSpine(up) {
        BorrowRightKeeps(c, t, p, s, e);
      }
      KeepsPlug(up, BorrowRight(c, t, p, s), e);
      BlackenSpine(Plug(up, BorrowRight(c, t, p, s)));
    }
  }

  lemma BlackenSpine(t: Tree)
    ensures Spine(Blacken(t)) == Spine(t)
  {
  }

  lemma {:induction false} EraseStepRightKeeps(up: Path, c: bool, s: Tree, p: RbNode, t: Tree, e: seq<RbNode>)
    requires Keeps(InRight(up, c, s, p), t, e)
    ensures EndsWith(Spine(EraseStepRight(up, c, s, p, t)), e)
    decreases !c, up, 1
  {
    if OnSpine(up) {
      EndsWithMore([p], Spine(s), e);
    }
    if s.Leaf? {
      KeepsPlug(up, Fork(c, s, p, t), e);
    } else if !IsRed(s.left) && !IsRed(s.right) {
      assert Spine(s.(red := true)) == Spine(s);
      EraseFixKeeps(up, Fork(c, s.(red := true), p, t), e);
    } else {
      if OnSpine(up) {
        BorrowLeftKeeps(c, s, p, t, e);
      }
      KeepsPlug(up, BorrowLeft(c, s, p, t), e);
      BlackenSpine(Plug(up, BorrowLeft(c, s, p, t)));
    }
  }

  lemma {:induction false} MinPathKeeps(z: Path, t: Tree, u: Tree, e: seq<RbNode>)
    requires t.Fork? && !OnSpine(z) && Keeps(z, Leaf, e)
    ensures Keeps(MinPath(z, t), u, e)
    decreases t
  {
    if t.left.Fork? {
      MinPathKeeps(InLeft(z, t.red, t.node, t.right), t.left, u, e);
    }
  }

  /** Erasing a node of the left spine leaves the spine below it as it was, at the end of the new spine. */
  lemma {:induction false} SpineSurvives(z: Path, t: Tree)
    requires t.Fork? && OnSpine(z)
    ensures EndsWith(Spine(EraseAt(z, t.red, t.left, t.right)), Spine(t.left))
  {
    var e := Spine(t.left);
    if t.left.Leaf? {
    } else if t.right.Leaf? {
      if t.red {
        KeepsPlug(z, t.left, e);
      } else {
        EraseFixKeeps(z, t.left, e);
      }
    } else {
      var m := MinTree(t.right);
      var base := InRight(z, t.red, t.left, m.node);
      MinPathKeeps(base, t.right, m.right, e);
      if m.red {
        KeepsPlug(MinPath(base, t.right), m.right, e);
      } else {
        EraseFixKeeps(MinPath(base, t.right), m.right, e);
      }
    }
  }

  // ---------- in terms of whole trees ----------

  lemma {:induction false} SpineInTree(t: Tree, k: nat)
    requires k < |Spine(t)|
    ensures Spine(t)[k] in Inorder(t)
  {
    if k > 0 {
      SpineInTree(t.left, k - 1);
    }
  }

  /** The search for a spine node goes down the spine. */
  lemma {:induction false} SeekSpine(z: Path, t: Tree, k: nat)
    requires OnSpine(z) && Ordered(t, Lo(z), Hi(z)) && k < |Spine(t)|
    ensures
      var (z', t') := Seek(z, t, Spine(t)[k].msecs);
      OnSpine(z') && t'.Fork? && t'.node == Spine(t)[k] && Spine(t') == Spine(t)[k..]
    decreases t
  {
    if k > 0 {
      SpineInTree(t.left, k - 1);
      OrderedAscending(t.left, Lo(z), t.node.msecs);
      SeekSpine(InLeft(z, t.red, t.node, t.right), t.left, k - 1);
    }
  }

  /** `rb_erase` of a spine node, as the walk of `objs_expire` needs it. */
  lemma {:induction false} ErasedSpine(t: Tree, k: nat)
    requires Sound(t) && k < |Spine(t)|
    ensures EndsWith(Spine(Erased(t, Spine(t)[k])), Spine(t)[k + 1..])
  {
    SeekSpine(Top, t, k);
    var (z, u) := Seek(Top, t, Spine(t)[k].msecs);
    SpineSurvives(z, u);
    assert Spine(u.left) == Spine(u)[1..] == Spine(t)[k + 1..];
  }

  /** The end of the left spine is the first node, the one with the earliest deadline. */
  lemma {:induction false} SpineEndsFirst(t: Tree)
    requires t.Fork?
    ensures |Spine(t)| > 0 && |Inorder(t)| > 0 && Spine(t)[|Spine(t)| - 1] == Inorder(t)[0]
  {
    if t.left.Fork? {
      SpineEndsFirst(t.left);
    }
  }

  // ---------- the height of a tree ----------

  function Height(t: Tree): nat {
    if t.Leaf? then 0
    else 1 + if Height(t.left) > Height(t.right) then Height(t.left) else Height(t.right)
  }

  function Pow2(n: nat): nat {
    if n == 0 then 1 else 2 * Pow2(n - 1)
  }

  lemma {:induction false} Pow2Adds(a: nat, b: nat)
    ensures Pow2(a + b) == Pow2(a) * Pow2(b)
  {
    if a > 0 {
      Pow2Adds(a - 1, b);
    }
  }

  lemma {:induction false} Pow2Grows(a: nat, b: nat)
    requires a <= b
    ensures Pow2(a) <= Pow2(b)
  {
    if a < b {
      Pow2Grows(a, b - 1);
    }
  }

  /** A tree of black height `h` has at least `2^h - 1` nodes and at most `2h` levels, one more if its root is red. */
  lemma {:induction false} HeightAndSize(t: Tree, h: nat)
    requires Rb(t, h)
    ensures Pow2(h) <= |Inorder(t)| + 1
    ensures Height(t) <= 2 * h + if IsRed(t) then 1 else 0
  {
    if t.Fork? {
      var h' := if t.red then h else h - 1;
      HeightAndSize(t.left, h');
      HeightAndSize(t.right, h');
    }
  }

  /** A balanced tree of `n` nodes has at most `2 log2 (n + 1)` levels. */
  lemma {:induction false} HeightBound(t: Tree)
    requires Balanced(t)
    ensures Logarithmic(Height(t), |Inorder(t)|)
  {
    var h := BlackHeight(t);
    HeightAndSize(t, h);
    Pow2Grows(Height(t), h + h);
    Pow2Adds(h, h);
    SquareGrows(Pow2(h), |Inorder(t)| + 1);
  }

  /** At most `2 log2 (n + 1)` steps */
  predicate Logarithmic(steps: nat, n: nat) {
    Pow2(steps) <= (n + 1) * (n + 1)
  }

  /** So a walk down such a tree takes at most `2 log2 (n + 1)` steps. */
  lemma StepsBound(t: Tree, steps: nat)
    requires Balanced(t) && steps <= Height(t)
    ensures Logarithmic(steps, |Inorder(t)|)
  {
    HeightBound(t);
    Pow2Grows(steps, Height(t));
  }

  /** A search ends no deeper than the height. */
  lemma {:induction false} SeekDepth(z: Path, t: Tree, k: Msecs)
    ensures Depth(Seek(z, t, k).0) <= Depth(z) + Height(t)
    decreases t
  {
    if t.Fork? && k < t.node.msecs {
      SeekDepth(InLeft(z, t.red, t.node, t.right), t.left, k);
    } else if t.Fork? && k != t.node.msecs {
      SeekDepth(InRight(z, t.red, t.left, t.node), t.right, k);
    }
  }

  lemma {:induction false} SpineLow(t: Tree)
    ensures |Spine(t)| <= Height(t)
  {
    if t.Fork? {
      SpineLow(t.left);
    }
  }

  lemma SquareGrows(a: nat, b: nat)
    requires a <= b
    ensures a * a <= b * b
  {
    assert a * a <= a * b <= b * b;
  }
}
