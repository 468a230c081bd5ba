/** The red-black tree of src/rbtree.c seen as a value.

    A `Tree` is the shape that the pointers of a set of nodes describe, and a `Path` is the
    way from the root down to a hole in such a tree (a zipper).  Modules RbInsertion and
    RbErasure state the two rebalancing loops as functions on a hole and the subtree that
    fills it; module RbTree proves that the pointer code computes those functions.
  */
module RbShape {

  /** A deadline in milliseconds since the server started, a `uint32_t`. */
  type Msecs = m: nat | m < 0x1_0000_0000

  /** `struct rb_node`, with the two fields of the `expiry_node_t` that embeds it
      (`container_of` leads from one to the other): a deadline and the objects due then.
    */
  class RbNode {
    var parent: RbNode?
    var red: bool
    var left: RbNode?
    var right: RbNode?

    const msecs: Msecs
    var objs: seq<nat>

    constructor (msecs: Msecs)
      ensures this.msecs == msecs && objs == []
    {
      this.msecs := msecs;
      parent, left, right := null, null, null;
      red, objs := true, [];
    }
  }

  datatype Tree = Leaf | Fork(red: bool, left: Tree, node: RbNode, right: Tree)

  /** The hole of `InLeft(up, ..)` is the left subtree of a node that itself sits in the hole of `up`. */
  datatype Path =
    | Top
    | InLeft(up: Path, red: bool, node: RbNode, right: Tree)
    | InRight(up: Path, red: bool, left: Tree, node: RbNode)

  function Root(t: Tree): RbNode? {
    if t.Leaf? then null else t.node
  }

  predicate IsRed(t: Tree) {
    t.Fork? && t.red
  }

  function Blacken(t: Tree): Tree {
    if t.Leaf? then t else t.(red := false)
  }

  function Plug(z: Path, t: Tree): Tree {
    match z
    case Top => t
    case InLeft(up, red, n, r) => Plug(up, Fork(red, t, n, r))
    case InRight(up, red, l, n) => Plug(up, Fork(red, l, n, t))
  }

  function Inorder(t: Tree): seq<RbNode> {
    match t
    case Leaf => []
    case Fork(_, l, n, r) => Inorder(l) + [n] + Inorder(r)
  }

  function Depth(z: Path): nat {
    if z.Top? then 0 else 1 + Depth(z.up)
  }

  /** The in-order sequence to the left of the hole. */
  function Before(z: Path): seq<RbNode> {
    match z
    case Top => []
    case InLeft(up, _, _, _) => Before(up)
    case InRight(up, _, l, n) => Before(up) + Inorder(l) + [n]
  }

  /** The in-order sequence to the right of the hole. */
  function After(z: Path): seq<RbNode> {
    match z
    case Top => []
    case InLeft(up, _, n, r) => [n] + Inorder(r) + After(up)
    case InRight(up, _, _, _) => After(up)
  }

  lemma {:induction false} InorderPlug(z: Path, t: Tree)
    ensures Inorder(Plug(z, t)) == Before(z) + Inorder(t) + After(z)
    decreases z
  {
    match z
    case Top =>
    case InLeft(up, red, n, r) => InorderPlug(up, Fork(red, t, n, r));
    case InRight(up, red, l, n) => InorderPlug(up, Fork(red, l, n, t));
  }

  // ---------- the order of the deadlines ----------

  /** All deadlines in `t` are strictly between `lo` and `hi` and increase from left to right. */
  predicate Ordered(t: Tree, lo: int, hi: int) {
    match t
    case Leaf => true
    case Fork(_, l, n, r) => lo < n.msecs < hi && Ordered(l, lo, n.msecs) && Ordered(r, n.msecs, hi)
  }

  /** The bounds that `z` puts on the deadlines in its hole. */
  function Lo(z: Path): int {
    match z
    case Top => -1
    case InLeft(up, _, _, _) => Lo(up)
    case InRight(_, _, _, n) => n.msecs
  }

  function Hi(z: Path): int {
    match z
    case Top => 0x1_0000_0000
    case InLeft(_, _, n, _) => n.msecs
    case InRight(up, _, _, _) => Hi(up)
  }

  predicate OrderedUp(z: Path) {
    match z
    case Top => true
    case InLeft(up, _, n, r) => Lo(up) < n.msecs < Hi(up) && Ordered(r, n.msecs, Hi(up)) && OrderedUp(up)
    case InRight(up, _, l, n) => Lo(up) < n.msecs < Hi(up) && Ordered(l, Lo(up), n.msecs) && OrderedUp(up)
  }

  lemma {:induction false} OrderedWiden(t: Tree, lo: int, hi: int, lo': int, hi': int)
    requires Ordered(t, lo, hi) && lo' <= lo && hi <= hi'
    ensures Ordered(t, lo', hi')
  {
    match t
    case Leaf =>
    case Fork(_, l, n, r) =>
      OrderedWiden(l, lo, n.msecs, lo', n.msecs);
      OrderedWiden(r, n.msecs, hi, n.msecs, hi');
  }

  // ---------- the red-black rules ----------

  /** No red node has a red child, and every way down from `t` to a leaf meets `h` black nodes. */
  predicate Rb(t: Tree, h: nat) {
    match t
    case Leaf => h == 0
    case Fork(red, l, _, r) =>
      if red then !IsRed(l) && !IsRed(r) && Rb(l, h) && Rb(r, h)
      else h > 0 && Rb(l, h - 1) && Rb(r, h - 1)
  }

  function BlackHeight(t: Tree): nat {
    match t
    case Leaf => 0
    case Fork(red, l, _, _) => BlackHeight(l) + if red then 0 else 1
  }

  /** A whole tree that keeps the rules, with a black root. */
  predicate Balanced(t: Tree) {
    !IsRed(t) && Rb(t, BlackHeight(t))
  }

  /** What surrounds the hole keeps the rules once a subtree of black height `h`, whose
      root is red only if `red`, is put there. */
  predicate RbPath(z: Path, red: bool, h: nat) {
    match z
    case Top => !red
    case InLeft(up, c, _, r) =>
      Rb(r, h) && (c ==> !red && !IsRed(r)) && RbPath(up, c, if c then h else h + 1)
    case InRight(up, c, l, _) =>
      Rb(l, h) && (c ==> !red && !IsRed(l)) && RbPath(up, c, if c then h else h + 1)
  }

  lemma {:induction false} RbHeight(t: Tree, h: nat)
    requires Rb(t, h)
    ensures BlackHeight(t) == h
  {
    match t
    case Leaf =>
    case Fork(red, l, _, r) => RbHeight(l, if red then h else h - 1);
  }

  lemma {:induction false} BalancedPlug(z: Path, t: Tree, h: nat)
    requires Rb(t, h) && RbPath(z, IsRed(t), h)
    ensures Balanced(Plug(z, t))
    decreases z
  {
    match z
    case Top => RbHeight(t, h);
    case InLeft(up, red, n, r) => BalancedPlug(up, Fork(red, t, n, r), if red then h else h + 1);
    case InRight(up, red, l, n) => BalancedPlug(up, Fork(red, l, n, t), if red then h else h + 1);
  }

  /** The converse: opening a balanced tree at any place. */
  lemma {:induction false} BalancedFocus(z: Path, t: Tree)
    requires Balanced(Plug(z, t))
    ensures Rb(t, BlackHeight(t)) && RbPath(z, IsRed(t), BlackHeight(t))
    decreases z
  {
    match z
    case Top =>
    case InLeft(up, red, n, r) =>
      BalancedFocus(up, Fork(red, t, n, r));
      RbHeight(t, BlackHeight(t));
    case InRight(up, red, l, n) =>
      BalancedFocus(up, Fork(red, l, n, t));
      RbHeight(t, BlackHeight(Fork(red, l, n, t)) - if red then 0 else 1);
  }

  lemma BlackenInorder(t: Tree)
    ensures Inorder(Blacken(t)) == Inorder(t)
  {
  }

  /** A rotation keeps the sequence, whatever the colours. */
  lemma RotateInorder(a: Tree, x: RbNode, b: Tree, y: RbNode, e: Tree)
    ensures forall c, d, c', d' :: Inorder(Fork(c, Fork(d, a, x, b), y, e)) == Inorder(Fork(c', a, x, Fork(d', b, y, e)))
  {
    forall c, d, c', d'
      ensures Inorder(Fork(c, Fork(d, a, x, b), y, e)) == Inorder(Fork(c', a, x, Fork(d', b, y, e)))
    {
      assert Inorder(Fork(d, a, x, b)) == Inorder(a) + [x] + Inorder(b);
      assert Inorder(Fork(d', b, y, e)) == Inorder(b) + [y] + Inorder(e);
    }
  }

  /** Rewriting the subtree in a hole without changing its sequence changes no sequence. */
  lemma {:induction false} RewriteKeepsInorder(z: Path, t: Tree, t': Tree)
    requires Inorder(t) == Inorder(t')
    ensures Inorder(Blacken(Plug(z, t'))) == Inorder(Plug(z, t)) == Inorder(Plug(z, t'))
  {
    InorderPlug(z, t);
    InorderPlug(z, t');
  }
}
