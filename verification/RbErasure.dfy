/** Removing a node (`rb_erase`, `__rb_erase_color`) as a function on shapes. */
module RbErasure {
  import opened RbShape

  /** The rules below the root of `t` only: a red root may have red children.  This is the
      state of the subtree that `__rb_erase_color` works on. */
  predicate RbBelow(t: Tree, h: nat) {
    match t
    case Leaf => h == 0
    case Fork(red, l, _, r) => (red || h > 0) && Rb(l, if red then h else h - 1) && Rb(r, if red then h else h - 1)
  }

  /** `__rb_erase_color`: the subtree `t` in the hole of `z` is one black node short. */
  function EraseFix(z: Path, t: Tree): Tree
    decreases !IsRed(t), z, 0
  {
    if IsRed(t) || z.Top? then
      Plug(z, Blacken(t))
    else
      match z
      case InLeft(up, c, p, s) =>
        if IsRed(s) then EraseStepLeft(InLeft(up, false, s.node, s.right), true, t, p, s.left)
        else EraseStepLeft(up, c, t, p, s)
      case InRight(up, c, s, p) =>
        if IsRed(s) then EraseStepRight(InRight(up, false, s.left, s.node), true, s.right, p, t)
        else EraseStepRight(up, c, s, p, t)
  }

  /** One round with the short subtree `t` on the left of `p` and a black sibling `s` on its right. */
  function EraseStepLeft(up: Path, c: bool, t: Tree, p: RbNode, s: Tree): Tree
    decreases !c, up, 1
  {
    if s.Leaf? then
      Plug(up, Fork(c, t, p, s))
    else if !IsRed(s.left) && !IsRed(s.right) then
      EraseFix(up, Fork(c, t, p, s.(red := true)))
    else
      Blacken(Plug(up, BorrowRight(c, t, p, s)))
  }

  /** The mirror image of EraseStepLeft. */
  function EraseStepRight(up: Path, c: bool, s: Tree, p: RbNode, t: Tree): Tree
    decreases !c, up, 1
  {
    if s.Leaf? then
      Plug(up, Fork(c, s, p, t))
    else if !IsRed(s.left) && !IsRed(s.right) then
      EraseFix(up, Fork(c, s.(red := true), p, t))
    else
      Blacken(Plug(up, BorrowLeft(c, s, p, t)))
  }

  /** The last rotations: `t` gets a black node from its sibling `s`, which has a red child. */
  function BorrowRight(c: bool, t: Tree, p: RbNode, s: Tree): Tree
    requires s.Fork? && (IsRed(s.left) || IsRed(s.right))
  {
    if IsRed(s.right) then
      Fork(c, Fork(false, t, p, s.left), s.node, Blacken(s.right))
    else
      Fork(c, Fork(false, t, p, s.left.left), s.left.node, Fork(false, s.left.right, s.node, s.right))
  }

  function BorrowLeft(c: bool, s: Tree, p: RbNode, t: Tree): Tree
    requires s.Fork? && (IsRed(s.left) || IsRed(s.right))
  {
    if IsRed(s.left) then
      Fork(c, Blacken(s.left), s.node, Fork(false, s.right, p, t))
    else
      Fork(c, Fork(false, s.left, s.node, s.right.left), s.right.node, Fork(false, s.right.right, p, t))
  }

  // ---------- the rules are restored ----------

  lemma {:induction false} EraseFixBalanced(z: Path, t: Tree, h: nat)
    requires RbBelow(t, h) && RbPath(z, false, h + 1)
    ensures Balanced(EraseFix(z, t))
    decreases !IsRed(t), z, 0
  {
    if IsRed(t) {
      BalancedPlug(z, Blacken(t), h + 1);
    } else {
      match z
      case Top => RbHeight(t, h);
      case InLeft(up, c, p, s) =>
        if IsRed(s) {
          EraseStepLeftBalanced(InLeft(up, false, s.node, s.right), true, t, p, s.left, h);
        } else {
          EraseStepLeftBalanced(up, c, t, p, s, h);
        }
      case InRight(up, c, s, p) =>
        if IsRed(s) {
          EraseStepRightBalanced(InRight(up, false, s.left, s.node), true, s.right, p, t, h);
        } else {
          EraseStepRightBalanced(up, c, s, p, t, h);
        }
    }
  }

  lemma {:induction false} EraseStepLeftBalanced(up: Path, c: bool, t: Tree, p: RbNode, s: Tree, h: nat)
    requires Rb(t, h) && !IsRed(t) && Rb(s, h + 1) && !IsRed(s)
    requires RbPath(up, c, if c then h + 1 else h + 2)
    ensures Balanced(EraseStepLeft(up, c, t, p, s))
    decreases !c, up, 1
  {
    if !IsRed(s.left) && !IsRed(s.right) {
      RbPathWeaken(up, c, if c then h + 1 else h + 2);
      EraseFixBalanced(up, Fork(c, t, p, s.(red := true)), if c then h else h + 1);
    } else {
      BalancedPlug(up, BorrowRight(c, t, p, s), if c then h + 1 else h + 2);
    }
  }

  lemma {:induction false} EraseStepRightBalanced(up: Path, c: bool, s: Tree, p: RbNode, t: Tree, h: nat)
    requires Rb(t, h) && !IsRed(t) && Rb(s, h + 1) && !IsRed(s)
    requires RbPath(up, c, if c then h + 1 else h + 2)
    ensures Balanced(EraseStepRight(up, c, s, p, t))
    decreases !c, up, 1
  {
    if !IsRed(s.left) && !IsRed(s.right) {
      RbPathWeaken(up, c, if c then h + 1 else h + 2);
      EraseFixBalanced(up, Fork(c, s.(red := true), p, t), if c then h else h + 1);
    } else {
      BalancedPlug(up, BorrowLeft(c, s, p, t), if c then h + 1 else h + 2);
    }
  }

  lemma RbPathWeaken(z: Path, red: bool, h: nat)
    requires RbPath(z, red, h)
    ensures RbPath(z, false, h)
  {
  }

  // ---------- one round at a time ----------

  /** The sibling right of `p` is ready for a round: black, and one black node higher than `t`. */
  predicate ReadyLeft(up: Path, c: bool, t: Tree, p: RbNode, s: Tree, h: nat) {
    Rb(t, h) && !IsRed(t) && s.Fork? && Rb(s, h + 1) && !IsRed(s) && RbPath(up, c, if c then h + 1 else h + 2)
  }

  lemma {:induction false} StartLeft(up: Path, c: bool, t: Tree, p: RbNode, s: Tree, h: nat)
    requires RbBelow(t, h) && !IsRed(t) && RbPath(InLeft(up, c, p, s), false, h + 1)
    ensures s.Fork?
    ensures IsRed(s) ==> s.left.Fork? && ReadyLeft(InLeft(up, false, s.node, s.right), true, t, p, s.left, h)
    ensures IsRed(s) ==> EraseFix(InLeft(up, c, p, s), t) == EraseStepLeft(InLeft(up, false, s.node, s.right), true, t, p, s.left)
    ensures !IsRed(s) ==> ReadyLeft(up, c, t, p, s, h) && EraseFix(InLeft(up, c, p, s), t) == EraseStepLeft(up, c, t, p, s)
  {
    assert IsRed(s) ==> Rb(s.left, h + 1) && !IsRed(s.left);
  }

  lemma {:induction false} FinishLeft(up: Path, c: bool, t: Tree, p: RbNode, s: Tree, h: nat)
    requires ReadyLeft(up, c, t, p, s, h)
    ensures
      if !IsRed(s.left) && !IsRed(s.right) then
        var t' := Fork(c, t, p, s.(red := true));
        && EraseStepLeft(up, c, t, p, s) == EraseFix(up, t')
        && RbBelow(t', if c then h else h + 1) && RbPath(up, false, if c then h + 1 else h + 2)
      else
        EraseStepLeft(up, c, t, p, s) == Blacken(Plug(up, BorrowRight(c, t, p, s)))
  {
    RbPathWeaken(up, c, if c then h + 1 else h + 2);
  }

  /** The sibling left of `p` is ready for a round: black, and one black node higher than `t`. */
  predicate ReadyRight(up: Path, c: bool, s: Tree, p: RbNode, t: Tree, h: nat) {
    Rb(t, h) && !IsRed(t) && s.Fork? && Rb(s, h + 1) && !IsRed(s) && RbPath(up, c, if c then h + 1 else h + 2)
  }

  lemma {:induction false} StartRight(up: Path, c: bool, s: Tree, p: RbNode, t: Tree, h: nat)
    requires RbBelow(t, h) && !IsRed(t) && RbPath(InRight(up, c, s, p), false, h + 1)
    ensures s.Fork?
    ensures IsRed(s) ==> s.right.Fork? && ReadyRight(InRight(up, false, s.left, s.node), true, s.right, p, t, h)
    ensures IsRed(s) ==> EraseFix(InRight(up, c, s, p), t) == EraseStepRight(InRight(up, false, s.left, s.node), true, s.right, p, t)
    ensures !IsRed(s) ==> ReadyRight(up, c, s, p, t, h) && EraseFix(InRight(up, c, s, p), t) == EraseStepRight(up, c, s, p, t)
  {
    assert IsRed(s) ==> Rb(s.right, h + 1) && !IsRed(s.right);
  }

  lemma {:induction false} FinishRight(up: Path, c: bool, s: Tree, p: RbNode, t: Tree, h: nat)
    requires ReadyRight(up, c, s, p, t, h)
    ensures
      if !IsRed(s.left) && !IsRed(s.right) then
        var t' := Fork(c, s.(red := true), p, t);
        && EraseStepRight(up, c, s, p, t) == EraseFix(up, t')
        && RbBelow(t', if c then h else h + 1) && RbPath(up, false, if c then h + 1 else h + 2)
      else
        EraseStepRight(up, c, s, p, t) == Blacken(Plug(up, BorrowLeft(c, s, p, t)))
  {
    RbPathWeaken(up, c, if c then h + 1 else h + 2);
  }

  // ---------- the sequence is kept ----------

  lemma {:induction false} BorrowRightInorder(c: bool, t: Tree, p: RbNode, s: Tree)
    requires s.Fork? && (IsRed(s.left) || IsRed(s.right))
    ensures Inorder(BorrowRight(c, t, p, s)) == Inorder(Fork(c, t, p, s))
  {
    if IsRed(s.right) {
      BlackenInorder(s.right);
      RotateInorder(t, p, s.left, s.node, s.right);
    } else {
      var b := s.left;
      RotateInorder(b.left, b.node, b.right, s.node, s.right);
      var s' := Fork(false, b.left, b.node, Fork(false, b.right, s.node, s.right));
      assert s == Fork(s.red, Fork(b.red, b.left, b.node, b.right), s.node, s.right) && Inorder(s) == Inorder(s');
      RotateInorder(t, p, b.left, b.node, s'.right);
      assert Inorder(Fork(c, t, p, s)) == Inorder(Fork(c, t, p, s'));
    }
  }

  lemma {:induction false} BorrowLeftInorder(c: bool, s: Tree, p: RbNode, t: Tree)
    requires s.Fork? && (IsRed(s.left) || IsRed(s.right))
    ensures Inorder(BorrowLeft(c, s, p, t)) == Inorder(Fork(c, s, p, t))
  {
    if IsRed(s.left) {
      BlackenInorder(s.left);
      RotateInorder(s.left, s.node, s.right, p, t);
    } else {
      var b := s.right;
      RotateInorder(s.left, s.node, b.left, b.node, b.right);
      var s' := Fork(false, Fork(false, s.left, s.node, b.left), b.node, b.right);
      assert s == Fork(s.red, s.left, s.node, Fork(b.red, b.left, b.node, b.right)) && Inorder(s) == Inorder(s');
      RotateInorder(s'.left, b.node, b.right, p, t);
      assert Inorder(Fork(c, s, p, t)) == Inorder(Fork(c, s', p, t));
    }
  }

  lemma {:induction false} EraseFixInorder(z: Path, t: Tree)
    ensures Inorder(EraseFix(z, t)) == Inorder(Plug(z, t))
    decreases !IsRed(t), z, 0
  {
    if IsRed(t) || z.Top? {
      RewriteKeepsInorder(z, t, Blacken(t));
    } else {
      match z
      case InLeft(up, c, p, s) =>
        if IsRed(s) {
          EraseStepLeftInorder(InLeft(up, false, s.node, s.right), true, t, p, s.left);
          RewriteKeepsInorder(up, Fork(c, t, p, s), Fork(false, Fork(true, t, p, s.left), s.node, s.right));
        } else {
          EraseStepLeftInorder(up, c, t, p, s);
        }
      case InRight(up, c, s, p) =>
        if IsRed(s) {
          EraseStepRightInorder(InRight(up, false, s.left, s.node), true, s.right, p, t);
          RewriteKeepsInorder(up, Fork(c, s, p, t), Fork(false, s.left, s.node, Fork(true, s.right, p, t)));
        } else {
          EraseStepRightInorder(up, c, s, p, t);
        }
    }
  }

  lemma {:induction false} EraseStepLeftInorder(up: Path, c: bool, t: Tree, p: RbNode, s: Tree)
    ensures Inorder(EraseStepLeft(up, c, t, p, s)) == Inorder(Plug(up, Fork(c, t, p, s)))
    decreases !c, up, 1
  {
    if s.Leaf? {
    } else if !IsRed(s.left) && !IsRed(s.right) {
      EraseFixInorder(up, Fork(c, t, p, s.(red := true)));
      RewriteKeepsInorder(up, Fork(c, t, p, s), Fork(c, t, p, s.(red := true)));
    } else {
      BorrowRightInorder(c, t, p, s);
      RewriteKeepsInorder(up, Fork(c, t, p, s), BorrowRight(c, t, p, s));
    }
  }

  lemma {:induction false} EraseStepRightInorder(up: Path, c: bool, s: Tree, p: RbNode, t: Tree)
    ensures Inorder(EraseStepRight(up, c, s, p, t)) == Inorder(Plug(up, Fork(c, s, p, t)))
    decreases !c, up, 1
  {
    if s.Leaf? {
    } else if !IsRed(s.left) && !IsRed(s.right) {
      EraseFixInorder(up, Fork(c, s.(red := true), p, t));
      RewriteKeepsInorder(up, Fork(c, s, p, t), Fork(c, s.(red := true), p, t));
    } else {
      BorrowLeftInorder(c, s, p, t);
      RewriteKeepsInorder(up, Fork(c, s, p, t), BorrowLeft(c, s, p, t));
    }
  }

  // ---------- taking out one node ----------

  /** The leftmost node of `t` with what hangs below it, and the way there from the hole of `z`. */
  function MinTree(t: Tree): (m: Tree)
    requires t.Fork?
    ensures m.Fork? && m.left.Leaf?
  {
    if t.left.Leaf? then t else MinTree(t.left)
  }

  function MinPath(z: Path, t: Tree): Path
    requires t.Fork?
    decreases t
  {
    if t.left.Leaf? then z else MinPath(InLeft(z, t.red, t.node, t.right), t.left)
  }

  /** `rb_erase`: the node in the hole of `z`, coloured `c`, goes away; `l` and `r` are its subtrees. */
  function EraseAt(z: Path, c: bool, l: Tree, r: Tree): Tree {
    if l.Leaf? then Close(z, c, r)
    else if r.Leaf? then Close(z, c, l)
    else
      var m := MinTree(r);
      Close(MinPath(InRight(z, c, l, m.node), r), m.red, m.right)
  }

  /** A node of colour `c` with the one child `t` has been taken out of the hole of `z`. */
  function Close(z: Path, c: bool, t: Tree): Tree {
    if c then Plug(z, t) else EraseFix(z, t)
  }

  lemma {:induction false} PlugMin(z: Path, t: Tree)
    requires t.Fork?
    ensures Plug(MinPath(z, t), MinTree(t)) == Plug(z, t)
    decreases t
  {
    if t.left.Fork? {
      PlugMin(InLeft(z, t.red, t.node, t.right), t.left);
    }
  }

  lemma {:induction false} RbMinPath(z: Path, t: Tree, h: nat) returns (k: nat)
    requires t.Fork? && Rb(t, h) && RbPath(z, t.red, h)
    ensures Rb(MinTree(t), k) && RbPath(MinPath(z, t), MinTree(t).red, k)
    decreases t
  {
    if t.left.Leaf? {
      k := h;
    } else {
      k := RbMinPath(InLeft(z, t.red, t.node, t.right), t.left, if t.red then h else h - 1);
    }
  }

  /** The rules around the place that `rb_erase` closes, where one node of colour `c` is gone. */
  predicate ClosesAt(z: Path, c: bool, t: Tree, h: nat) {
    (c ==> !IsRed(t)) && RbPath(z, c, if c then h else h + 1) && Rb(t, h)
  }

  lemma {:induction false} EraseReady(z: Path, t: Tree) returns (h: nat)
    requires t.Fork? && Balanced(Plug(z, t))
    ensures
      if t.left.Leaf? then ClosesAt(z, t.red, t.right, h)
      else if t.right.Leaf? then ClosesAt(z, t.red, t.left, h)
      else
        var m := MinTree(t.right);
        ClosesAt(MinPath(InRight(z, t.red, t.left, m.node), t.right), m.red, m.right, h)
  {
    BalancedFocus(z, t);
    h := BlackHeight(t);
    if t.left.Leaf? || t.right.Leaf? {
      h := if t.red then h else h - 1;
    } else {
      var m := MinTree(t.right);
      h := RbMinPath(InRight(z, t.red, t.left, m.node), t.right, if t.red then h else h - 1);
      h := if m.red then h else h - 1;
    }
  }

  lemma {:induction false} CloseBalanced(z: Path, c: bool, t: Tree, h: nat)
    requires ClosesAt(z, c, t, h)
    ensures Balanced(Close(z, c, t))
  {
    RbPathWeaken(z, c, if c then h else h + 1);
    if c {
      BalancedPlug(z, t, h);
    } else {
      EraseFixBalanced(z, t, h);
    }
  }

  /** Erasing any node of a valid tree leaves a valid tree. */
  lemma {:induction false} EraseAtBalanced(z: Path, t: Tree)
    requires t.Fork? && Balanced(Plug(z, t))
    ensures Balanced(EraseAt(z, t.red, t.left, t.right))
  {
    var h := EraseReady(z, t);
    if t.left.Leaf? {
      CloseBalanced(z, t.red, t.right, h);
    } else if t.right.Leaf? {
      CloseBalanced(z, t.red, t.left, h);
    } else {
      var m := MinTree(t.right);
      CloseBalanced(MinPath(InRight(z, t.red, t.left, m.node), t.right), m.red, m.right, h);
    }
  }

  lemma {:induction false} MinInorder(z: Path, t: Tree)
    requires t.Fork?
    ensures Inorder(t) == [MinTree(t).node] + Inorder(t)[1..]
    ensures Inorder(Plug(MinPath(z, t), MinTree(t).right)) == Before(z) + Inorder(t)[1..] + After(z)
    decreases t
  {
    hide Plug, Before, After;
    if t.left.Leaf? {
      InorderPlug(z, t.right);
      assert Inorder(t) == [t.node] + Inorder(t.right);
    } else {
      var up := InLeft(z, t.red, t.node, t.right);
      MinInorder(up, t.left);
      HoleInorder(z, t.red, t.node, t.right);
      var l, r := Inorder(t.left), [t.node] + Inorder(t.right);
      assert Inorder(t) == l + r && (l + r)[1..] == l[1..] + r;
      assert Before(z) + l[1..] + (r + After(z)) == Before(z) + (l[1..] + r) + After(z);
    }
  }

  lemma HoleInorder(z: Path, red: bool, n: RbNode, r: Tree)
    ensures Before(InLeft(z, red, n, r)) == Before(z)
    ensures After(InLeft(z, red, n, r)) == [n] + Inorder(r) + After(z)
  {
  }

  /** Erasing a node removes exactly that node from the in-order sequence. */
  lemma {:induction false} EraseAtInorder(z: Path, c: bool, l: Tree, x: RbNode, r: Tree)
    ensures Inorder(Plug(z, Fork(c, l, x, r))) == (Before(z) + Inorder(l)) + [x] + (Inorder(r) + After(z))
    ensures Inorder(EraseAt(z, c, l, r)) == (Before(z) + Inorder(l)) + (Inorder(r) + After(z))
  {
    EraseCases(z, c, l, r);
    ForkInorder(c, l, x, r);
    hide EraseFix, EraseAt, Close, Inorder, Plug, Before, After;
    InorderPlug(z, Fork(c, l, x, r));
    if l.Leaf? {
      CloseInorder(z, c, r);
    } else if r.Leaf? {
      CloseInorder(z, c, l);
    } else {
      EraseBetweenInorder(z, c, l, r);
    }
  }

  lemma ForkInorder(c: bool, l: Tree, x: RbNode, r: Tree)
    ensures Inorder(Fork(c, l, x, r)) == Inorder(l) + [x] + Inorder(r) && Inorder(Leaf) == []
  {
  }

  lemma EraseCases(z: Path, c: bool, l: Tree, r: Tree)
    ensures l.Leaf? ==> EraseAt(z, c, l, r) == Close(z, c, r)
    ensures l.Fork? && r.Leaf? ==> EraseAt(z, c, l, r) == Close(z, c, l)
  {
  }

  lemma {:induction false} CloseInorder(z: Path, c: bool, t: Tree)
    ensures Inorder(Close(z, c, t)) == Before(z) + Inorder(t) + After(z)
  {
    EraseFixInorder(z, t);
    InorderPlug(z, t);
  }

  lemma {:induction false} EraseBetweenInorder(z: Path, c: bool, l: Tree, r: Tree)
    requires l.Fork? && r.Fork?
    ensures Inorder(EraseAt(z, c, l, r)) == (Before(z) + Inorder(l)) + (Inorder(r) + After(z))
  {
    var m := MinTree(r);
    var base := InRight(z, c, l, m.node);
    EraseFixInorder(MinPath(base, r), m.right);
    MinInorder(base, r);
  }
}
