/**
  The operations of src/hclib-tree.c on linked nodes that are rewritten in place.
  Each is proved to compute what the function of the same name in MemoryTree
  computes.  Where the C code takes a pointer to the root pointer, the method
  returns the new root.
 */
module MemoryTreeNodes {
  import opened Common
  import T = MemoryTree

  class TreeNode {
    var height: int
    var left: TreeNode?
    var right: TreeNode?
    const start: int
    const length: nat

    /** create_memory_tree_node: a fresh leaf stores height -1. */
    constructor (start: int, length: nat)
      ensures left == null && right == null && height == -1
      ensures this.start == start && this.length == length
    {
      this.start := start;
      this.length := length;
      height := -1;
      left := null;
      right := null;
    }

    function Child(dir: T.Dir): TreeNode?
      reads this
    {
      if dir then right else left
    }

    method SetChild(dir: T.Dir, c: TreeNode?)
      modifies this`left, this`right
      ensures Child(dir) == c && Child(!dir) == old(Child(!dir))
    {
      if dir {
        right := c;
      } else {
        left := c;
      }
    }

    /** set_height */
    method SetHeight()
      requires left != this && right != this
      modifies this`height
      ensures height == 1 + T.Max(HeightOf(left), HeightOf(right))
    {
      height := 1 + T.Max(HeightOf(left), HeightOf(right));
    }
  }

  function HeightOf(n: TreeNode?): int
    reads n
  {
    if n == null then -1 else n.height
  }

  /** Which node sits where: the ghost outline of a linked tree. */
  datatype Shape = Empty | At(node: TreeNode, left: Shape, right: Shape)

  ghost function Root(s: Shape): TreeNode? {
    if s.Empty? then null else s.node
  }

  ghost function Nodes(s: Shape): set<TreeNode> {
    if s.Empty? then {} else {s.node} + Nodes(s.left) + Nodes(s.right)
  }

  /** No node occurs twice. */
  ghost predicate Proper(s: Shape) {
    s.At? ==>
      && s.node !in Nodes(s.left) && s.node !in Nodes(s.right)
      && Nodes(s.left) !! Nodes(s.right)
      && Proper(s.left) && Proper(s.right)
  }

  /** The child pointers follow the outline. */
  ghost predicate Linked(s: Shape)
    reads Nodes(s)
  {
    s.At? ==>
      && s.node.left == Root(s.left) && s.node.right == Root(s.right)
      && Linked(s.left) && Linked(s.right)
  }

  /** The tree value that the nodes hold. */
  ghost function Value(s: Shape): T.Tree
    reads Nodes(s)
  {
    if s.Empty? then T.Nil
    else T.Node(s.node.height, Value(s.left), Value(s.right), s.node.start, s.node.length)
  }

  ghost predicate IsTree(n: TreeNode?, s: Shape)
    reads Nodes(s)
  {
    n == Root(s) && Proper(s) && Linked(s)
  }

  lemma RootHeight(s: Shape)
    ensures HeightOf(Root(s)) == T.Height(Value(s))
  {
  }

  // ---------------------------------------------------------------------
  // Rotation
  // ---------------------------------------------------------------------

  ghost function Kid(s: Shape, dir: T.Dir): Shape
    requires s.At?
  {
    if dir then s.right else s.left
  }

  /** A node with `near` below it in direction `dir` and `far` in the other. */
  ghost function Join(n: TreeNode, dir: T.Dir, near: Shape, far: Shape): Shape {
    if dir then At(n, far, near) else At(n, near, far)
  }

  /** The outline after a rotation. */
  ghost function Turned(s: Shape, dir: T.Dir): Shape
    requires s.At? && Kid(s, dir).At?
  {
    var c := Kid(s, dir);
    Join(c.node, dir, Kid(c, dir), Join(s.node, dir, Kid(c, !dir), Kid(s, !dir)))
  }

  lemma TurnedIsProper(s: Shape, dir: T.Dir)
    requires s.At? && Kid(s, dir).At? && Proper(s)
    ensures Proper(Turned(s, dir)) && Nodes(Turned(s, dir)) == Nodes(s)
  {
  }

  /** The two nodes of a rotation and the three trees below them are apart. */
  ghost predicate Apart(p: TreeNode, c: TreeNode, x: Shape, y: Shape, z: Shape) {
    && p != c
    && p !in Nodes(x) && p !in Nodes(y) && p !in Nodes(z)
    && c !in Nodes(x) && c !in Nodes(y) && c !in Nodes(z)
  }

  lemma PartsApart(s: Shape, dir: T.Dir)
    requires s.At? && Kid(s, dir).At? && Proper(s)
    ensures Apart(s.node, Kid(s, dir).node, Kid(s, !dir), Kid(Kid(s, dir), !dir), Kid(Kid(s, dir), dir))
  {
  }

  lemma LinkedKids(s: Shape, dir: T.Dir)
    requires s.At?
    ensures Linked(s) <==> s.node.Child(dir) == Root(Kid(s, dir)) && s.node.Child(!dir) == Root(Kid(s, !dir))
                           && Linked(Kid(s, dir)) && Linked(Kid(s, !dir))
  {
  }

  /** rotate, with the child present: without one the C code frees the root. */
  method Rotate(root: TreeNode, dir: T.Dir, ghost s: Shape) returns (r: TreeNode)
    requires IsTree(root, s) && Kid(s, dir).At?
    modifies root, Kid(s, dir).node
    ensures IsTree(r, Turned(s, dir)) && Nodes(Turned(s, dir)) == Nodes(s)
    ensures Value(Turned(s, dir)) == T.Rotate(old(Value(s)), dir)
  {
    TurnedIsProper(s, dir);
    PartsApart(s, dir);
    LinkedKids(s, dir);
    LinkedKids(Kid(s, dir), dir);
    ghost var x, y, z := Kid(s, !dir), Kid(Kid(s, dir), !dir), Kid(Kid(s, dir), dir);
    r := root.Child(dir);
    RootHeight(x);
    RootHeight(y);
    Relink(root, r, dir, {x, y, z});
    ghost var inner := Join(root, dir, y, x);
    LinkedKids(inner, dir);
    LinkedKids(Turned(s, dir), dir);
  }

  /** The assignments of rotate. */
  method Relink(root: TreeNode, c: TreeNode, dir: T.Dir, ghost below: set<Shape>)
    requires root != c && root != root.Child(!dir) && c != root.Child(!dir) && root != c.Child(!dir) && c != c.Child(!dir)
    requires forall x <- below :: root !in Nodes(x) && c !in Nodes(x)
    modifies root, c
    ensures c.Child(!dir) == root && c.Child(dir) == old(c.Child(dir)) && c.height == old(c.height)
    ensures root.Child(dir) == old(c.Child(!dir)) && root.Child(!dir) == old(root.Child(!dir))
    ensures root.height == 1 + T.Max(old(HeightOf(root.Child(!dir))), old(HeightOf(c.Child(!dir))))
    ensures forall x <- below :: Linked(x) == old(Linked(x)) && Value(x) == old(Value(x))
  {
    assert forall x <- below :: allocated(Nodes(x));
    root.SetChild(dir, c.Child(!dir));
    root.SetHeight();
    c.SetChild(!dir, root);
  }

  // ---------------------------------------------------------------------
  // Rebalancing, insertion and lookup
  // ---------------------------------------------------------------------

  /** balance */
  function BalanceOf(n: TreeNode): int
    reads n, n.left, n.right
  {
    HeightOf(n.left) - HeightOf(n.right)
  }

  lemma RootBalance(s: Shape)
    requires s.At? && Linked(s)
    ensures BalanceOf(s.node) == T.Balance(Value(s))
  {
  }

  /** Division by two in C. */
  function Half(x: int): int {
    if x >= 0 then x / 2 else -((-x) / 2)
  }

  /** The child towards `dir` replaced. */
  ghost function WithKid(s: Shape, dir: T.Dir, k: Shape): Shape
    requires s.At?
  {
    Join(s.node, dir, k, Kid(s, !dir))
  }

  /** Replacing a child by a tree over the same nodes, or over those and new ones, keeps the outline proper. */
  lemma WithKidIsProper(s: Shape, dir: T.Dir, k: Shape)
    requires s.At? && Proper(s) && Proper(k)
    requires s.node !in Nodes(k) && Nodes(k) !! Nodes(Kid(s, !dir))
    ensures Proper(WithKid(s, dir, k))
    ensures Nodes(WithKid(s, dir, k)) == {s.node} + Nodes(k) + Nodes(Kid(s, !dir))
    ensures Nodes(s) == {s.node} + Nodes(Kid(s, dir)) + Nodes(Kid(s, !dir))
  {
  }

  /** Storing a child below a root whose other side `far` is in order. */
  method Attach(root: TreeNode, dir: T.Dir, c: TreeNode?, ghost k: Shape, ghost far: Shape)
    requires IsTree(c, k) && Linked(far) && root.Child(!dir) == Root(far)
    requires root !in Nodes(k) && root !in Nodes(far)
    modifies root`left, root`right
    ensures Linked(Join(root, dir, k, far))
    ensures Value(Join(root, dir, k, far)) == Assembled(root, dir, old(Value(k)), old(Value(far)))
    ensures root.height == old(root.height)
  {
    assert allocated(Nodes(k)) && allocated(Nodes(far));
    root.SetChild(dir, c);
    LinkedKids(Join(root, dir, k, far), dir);
  }

  /** A node's own fields with the given trees below it. */
  ghost function Assembled(n: TreeNode, dir: T.Dir, near: T.Tree, far: T.Tree): T.Tree
    reads n
  {
    if dir then T.Node(n.height, far, near, n.start, n.length) else T.Node(n.height, near, far, n.start, n.length)
  }

  /** The first rotation of a double one, below the root. */
  method RotateChild(root: TreeNode, dir: T.Dir, ghost s: Shape) returns (ghost s': Shape)
    requires IsTree(root, s) && Kid(s, dir).At? && Kid(Kid(s, dir), !dir).At?
    modifies Nodes(s)
    ensures IsTree(root, s') && Nodes(s') == Nodes(s)
    ensures var t := old(Value(s));
            T.Child(t, dir).Node? && Value(s') == T.SetChild(t, dir, T.Rotate(T.Child(t, dir), !dir))
  {
    LinkedKids(s, dir);
    ghost var k, far := Kid(s, dir), Kid(s, !dir);
    s' := WithKid(s, dir, Turned(k, !dir));
    TurnedIsProper(k, !dir);
    WithKidIsProper(s, dir, Turned(k, !dir));
    WithKidIsProper(s, dir, k);
    assert allocated(Nodes(far));
    var c := Rotate(root.Child(dir), !dir, k);
    Attach(root, dir, c, Turned(k, !dir), far);
  }

  lemma KidIsTree(n: TreeNode, s: Shape, dir: T.Dir)
    requires IsTree(n, s)
    ensures IsTree(n.Child(dir), Kid(s, dir)) && Value(Kid(s, dir)) == T.Child(Value(s), dir)
    ensures T.Child(Value(s), dir).Node? <==> Kid(s, dir).At?
  {
  }

  /** The rotations of adjust_balance for a root that leans towards `dir`; `b` is its halved balance. */
  method Turn(root: TreeNode, dir: T.Dir, b: int, ghost s: Shape) returns (r: TreeNode, ghost s': Shape)
    requires IsTree(root, s)
    requires T.Child(Value(s), dir).Node?
    requires T.Balance(T.Child(Value(s), dir)) == -b ==> T.Child(T.Child(Value(s), dir), !dir).Node?
    modifies Nodes(s)
    ensures IsTree(r, s') && Nodes(s') == Nodes(s)
    ensures var t := old(Value(s));
            && T.Child(t, dir).Node?
            && var c := T.Child(t, dir);
               Value(s') == T.Rotate(if T.Balance(c) == -b then T.SetChild(t, dir, T.Rotate(c, !dir)) else t, dir)
  {
    KidIsTree(root, s, dir);
    s' := s;
    var c := root.Child(dir);
    RootBalance(Kid(s, dir));
    if BalanceOf(c) == -b {
      KidIsTree(c, Kid(s, dir), !dir);
      s' := RotateChild(root, dir, s);
      KidIsTree(root, s', dir);
    }
    r := Rotate(root, dir, s');
    s' := Turned(s', dir);
  }

  /** adjust_balance */
  method AdjustBalance(root: TreeNode, ghost s: Shape) returns (r: TreeNode, ghost s': Shape)
    requires IsTree(root, s) && T.OnceTilted(Value(s))
    modifies Nodes(s)
    ensures IsTree(r, s') && Nodes(s') == Nodes(s)
    ensures T.Adjustable(old(Value(s))) && Value(s') == T.AdjustBalance(old(Value(s)))
  {
    T.TiltedHasGrandchild(Value(s));
    r, s' := root, s;
    RootBalance(s);
    var b := Half(BalanceOf(root));
    if b != 0 {
      r, s' := Turn(root, b < 0, b, s);
    }
    Restore(r, s');
  }

  /** set_height at the root of a tree. */
  method Restore(root: TreeNode, ghost s: Shape)
    requires IsTree(root, s)
    modifies root`height
    ensures IsTree(root, s) && Value(s) == T.SetHeight(old(Value(s)))
  {
    assert allocated(Nodes(s.left)) && allocated(Nodes(s.right));
    RootHeight(s.left);
    RootHeight(s.right);
    root.SetHeight();
  }

  /** hclib_memory_tree_insert; the precondition is its assertion at each node on the way down. */
  method Insert(root: TreeNode?, address: int, length: nat, ghost s: Shape) returns (r: TreeNode, ghost s': Shape)
    requires IsTree(root, s) && T.Balanced(Value(s)) && T.Clear(Value(s), address)
    modifies Nodes(s)
    ensures IsTree(r, s') && Nodes(s) < Nodes(s') && fresh(Nodes(s') - Nodes(s))
    ensures Value(s') == T.Insert(old(Value(s)), address, length)
    decreases s
  {
    if root == null {
      r := new TreeNode(address, length);
      s' := At(r, Empty, Empty);
    } else {
      var dir := address >= root.start;
      LinkedKids(s, dir);
      ghost var k, far := Kid(s, dir), Kid(s, !dir);
      WithKidIsProper(s, dir, k);
      assert allocated(Nodes(far));
      var c;
      ghost var k';
      c, k' := Insert(root.Child(dir), address, length, k);
      WithKidIsProper(s, dir, k');
      Attach(root, dir, c, k', far);
      r, s' := AdjustBalance(root, WithKid(s, dir, k'));
    }
  }

  /** find */
  method Find(address: int, curr: TreeNode?, ghost s: Shape) returns (n: TreeNode?)
    requires IsTree(curr, s)
    ensures n == null <==> T.Find(Value(s), address).None?
    ensures n != null ==> n in Nodes(s) && T.Find(Value(s), address) == Some((n.start, n.length))
    decreases s
  {
    if curr == null {
      return null;
    }
    if address >= curr.start && address < curr.start + curr.length {
      return curr;
    } else if address < curr.start {
      n := Find(address, curr.left, s.left);
    } else {
      n := Find(address, curr.right, s.right);
    }
  }
}
