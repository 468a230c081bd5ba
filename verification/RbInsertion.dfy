/** The rebalancing that follows an insertion (`rb_insert_color`) as a function on shapes. */
module RbInsertion {
  import opened RbShape

  /** `rb_insert_color` with the red subtree `t` in the hole of `z`. */
  function InsertFix(z: Path, t: Tree): Tree {
    match z
    case InLeft(InLeft(up, gred, g, uncle), true, p, r) =>
      if IsRed(uncle) then
        InsertFix(up, Fork(true, Fork(false, t, p, r), g, Blacken(uncle)))
      else
        Blacken(Plug(up, Fork(false, t, p, Fork(true, r, g, uncle))))
    case InRight(InLeft(up, gred, g, uncle), true, l, p) =>
      if IsRed(uncle) then
        InsertFix(up, Fork(true, Fork(false, l, p, t), g, Blacken(uncle)))
      else if t.Fork? then
        Blacken(Plug(up, Fork(false, Fork(true, l, p, t.left), t.node, Fork(true, t.right, g, uncle))))
      else
        Plug(z, t)
    case InRight(InRight(up, gred, uncle, g), true, l, p) =>
      if IsRed(uncle) then
        InsertFix(up, Fork(true, Blacken(uncle), g, Fork(false, l, p, t)))
      else
        Blacken(Plug(up, Fork(false, Fork(true, uncle, g, l), p, t)))
    case InLeft(InRight(up, gred, uncle, g), true, p, r) =>
      if IsRed(uncle) then
        InsertFix(up, Fork(true, Blacken(uncle), g, Fork(false, t, p, r)))
      else if t.Fork? then
        Blacken(Plug(up, Fork(false, Fork(true, uncle, g, t.left), t.node, Fork(true, t.right, p, r))))
      else
        Plug(z, t)
    case _ => Blacken(Plug(z, t))
  }

  /** Rebalancing an insertion: the only fault allowed on entry is a red parent of the red `t`. */
  lemma {:induction false} InsertFixBalanced(z: Path, t: Tree, h: nat)
    requires IsRed(t) && Rb(t, h) && RbPath(z, false, h)
    ensures Balanced(InsertFix(z, t))
    decreases z
  {
    match z
    case Top => RbHeight(Blacken(t), h + 1);
    case InLeft(InLeft(up, _, g, uncle), true, p, r) =>
      if IsRed(uncle) {
        InsertFixBalanced(up, Fork(true, Fork(false, t, p, r), g, Blacken(uncle)), h + 1);
      } else {
        BalancedPlug(up, Fork(false, t, p, Fork(true, r, g, uncle)), h + 1);
      }
    case InRight(InLeft(up, _, g, uncle), true, l, p) =>
      if IsRed(uncle) {
        InsertFixBalanced(up, Fork(true, Fork(false, l, p, t), g, Blacken(uncle)), h + 1);
      } else {
        BalancedPlug(up, Fork(false, Fork(true, l, p, t.left), t.node, Fork(true, t.right, g, uncle)), h + 1);
      }
    case InRight(InRight(up, _, uncle, g), true, l, p) =>
      if IsRed(uncle) {
        InsertFixBalanced(up, Fork(true, Blacken(uncle), g, Fork(false, l, p, t)), h + 1);
      } else {
        BalancedPlug(up, Fork(false, Fork(true, uncle, g, l), p, t), h + 1);
      }
    case InLeft(InRight(up, _, uncle, g), true, p, r) =>
      if IsRed(uncle) {
        InsertFixBalanced(up, Fork(true, Blacken(uncle), g, Fork(false, t, p, r)), h + 1);
      } else {
        BalancedPlug(up, Fork(false, Fork(true, uncle, g, t.left), t.node, Fork(true, t.right, p, r)), h + 1);
      }
    case _ => BalancedPlug(z, t, h);
  }

  lemma {:induction false} InsertFixInorder(z: Path, t: Tree)
    ensures Inorder(InsertFix(z, t)) == Inorder(Plug(z, t))
    decreases z, 1
  {
    if z.Top? || !z.red || z.up.Top? {
      RewriteKeepsInorder(z, t, t);
    } else if z.up.InLeft? {
      InsertRoundLeftInorder(z, t);
    } else {
      InsertRoundRightInorder(z, t);
    }
  }

  lemma {:induction false} InsertRoundLeftInorder(z: Path, t: Tree)
    requires !z.Top? && z.red && z.up.InLeft?
    ensures Inorder(InsertFix(z, t)) == Inorder(Plug(z, t))
    decreases z, 0
  {
    var up, uncle := z.up.up, z.up.right;
    var p := if z.InLeft? then Fork(true, t, z.node, z.right) else Fork(true, z.left, z.node, t);
    var before := Fork(z.up.red, p, z.up.node, uncle);
    if IsRed(uncle) {
      BlackenInorder(p);
      BlackenInorder(uncle);
      var after := Fork(true, Blacken(p), z.up.node, Blacken(uncle));
      InsertFixInorder(up, after);
      RewriteKeepsInorder(up, before, after);
    } else if z.InRight? && t.Leaf? {
    } else {
      var q := if z.InRight? then Fork(true, Fork(true, z.left, z.node, t.left), t.node, t.right) else p;
      if z.InRight? {
        RotateInorder(z.left, z.node, t.left, t.node, t.right);
      }
      RotateInorder(q.left, q.node, q.right, z.up.node, uncle);
      RewriteKeepsInorder(up, before, Fork(false, q.left, q.node, Fork(true, q.right, z.up.node, uncle)));
    }
  }

  lemma {:induction false} InsertRoundRightInorder(z: Path, t: Tree)
    requires !z.Top? && z.red && z.up.InRight?
    ensures Inorder(InsertFix(z, t)) == Inorder(Plug(z, t))
    decreases z, 0
  {
    var up, uncle := z.up.up, z.up.left;
    var p := if z.InLeft? then Fork(true, t, z.node, z.right) else Fork(true, z.left, z.node, t);
    var before := Fork(z.up.red, uncle, z.up.node, p);
    if IsRed(uncle) {
      BlackenInorder(p);
      BlackenInorder(uncle);
      var after := Fork(true, Blacken(uncle), z.up.node, Blacken(p));
      InsertFixInorder(up, after);
      RewriteKeepsInorder(up, before, after);
    } else if z.InLeft? && t.Leaf? {
    } else {
      var q := if z.InLeft? then Fork(true, t.left, t.node, Fork(true, t.right, z.node, z.right)) else p;
      if z.InLeft? {
        RotateInorder(t.left, t.node, t.right, z.node, z.right);
      }
      RotateInorder(uncle, z.up.node, q.left, q.node, q.right);
      RewriteKeepsInorder(up, before, Fork(false, Fork(true, uncle, z.up.node, q.left), q.node, q.right));
    }
  }

  /** The two rounds of `rb_insert_color` that do not end it: first, the uncle is red. */
  lemma {:induction false} PushUpStep(z: Path, t: Tree, h: nat)
    requires IsRed(t) && Rb(t, h) && RbPath(z, false, h)
    requires !z.Top? && z.red && IsRed(Uncle(z))
    ensures
      var g := PushedUp(z, t);
      InsertFix(z.up.up, g) == InsertFix(z, t) && Rb(g, h + 1) && RbPath(z.up.up, false, h + 1)
  {
  }

  /** The sibling of the parent of the hole. */
  function Uncle(z: Path): Tree {
    if z.Top? || z.up.Top? then Leaf else if z.up.InLeft? then z.up.right else z.up.left
  }

  function PushedUp(z: Path, t: Tree): Tree
    requires !z.Top? && !z.up.Top?
  {
    var p := if z.InLeft? then Fork(false, t, z.node, z.right) else Fork(false, z.left, z.node, t);
    if z.up.InLeft? then Fork(true, p, z.up.node, Blacken(z.up.right))
    else Fork(true, Blacken(z.up.left), z.up.node, p)
  }

  /** The conflict on the left of the grandparent, turned to the outer side: the parent and what it carries. */
  function OuterLeft(z: Path, t: Tree): Tree
    requires !z.Top? && IsRed(t)
  {
    if z.InLeft? then Fork(true, t, z.node, z.right)
    else Fork(true, Fork(true, z.left, z.node, t.left), t.node, t.right)
  }

  function OuterRight(z: Path, t: Tree): Tree
    requires !z.Top? && IsRed(t)
  {
    if z.InRight? then Fork(true, z.left, z.node, t)
    else Fork(true, t.left, t.node, Fork(true, t.right, z.node, z.right))
  }

  /** The last round, with a black uncle. */
  lemma {:induction false} TurnStepLeft(z: Path, t: Tree, h: nat)
    requires IsRed(t) && Rb(t, h) && RbPath(z, false, h)
    requires !z.Top? && z.red && z.up.InLeft? && !IsRed(z.up.right)
    ensures
      var p := OuterLeft(z, t);
      var z' := InLeft(z.up.up, false, p.node, Fork(true, p.right, z.up.node, z.up.right));
      IsRed(p.left) && InsertFix(z', p.left) == InsertFix(z, t) && Rb(p.left, h) && RbPath(z', false, h)
  {
  }

  lemma {:induction false} TurnStepRight(z: Path, t: Tree, h: nat)
    requires IsRed(t) && Rb(t, h) && RbPath(z, false, h)
    requires !z.Top? && z.red && z.up.InRight? && !IsRed(z.up.left)
    ensures
      var p := OuterRight(z, t);
      var z' := InRight(z.up.up, false, Fork(true, z.up.left, z.up.node, p.left), p.node);
      IsRed(p.right) && InsertFix(z', p.right) == InsertFix(z, t) && Rb(p.right, h) && RbPath(z', false, h)
  {
  }
}
