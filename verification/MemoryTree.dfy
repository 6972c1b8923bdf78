/**
  The self-balancing tree of memory ranges of src/hclib-tree.c: what insertion and
  lookup compute, on immutable trees.  MemoryTreeNodes has the same operations on
  linked nodes updated in place.
 */
module MemoryTree {
  import opened Common

  /** A range of addresses: start and length. */
  type Range = (int, nat)

  datatype Tree = Nil | Node(height: int, left: Tree, right: Tree, start: int, length: nat)

  /** Which child: LEFT is false, RIGHT is true. */
  type Dir = bool

  function Height(t: Tree): int {
    if t.Nil? then -1 else t.height
  }

  function Max(a: int, b: int): int {
    if a > b then a else b
  }

  function Child(t: Tree, dir: Dir): Tree
    requires t.Node?
  {
    if dir then t.right else t.left
  }

  function SetChild(t: Tree, dir: Dir, c: Tree): Tree
    requires t.Node?
  {
    if dir then t.(right := c) else t.(left := c)
  }

  function SetHeight(t: Tree): Tree
    requires t.Node?
  {
    t.(height := 1 + Max(Height(t.left), Height(t.right)))
  }

  function Balance(t: Tree): int
    requires t.Node?
  {
    Height(t.left) - Height(t.right)
  }

  /** The child in direction `dir` becomes the root; without one the old root is freed. */
  function Rotate(t: Tree, dir: Dir): Tree
    requires t.Node?
  {
    var c := Child(t, dir);
    if c.Nil? then Nil
    else SetChild(c, !dir, SetHeight(SetChild(t, dir, Child(c, !dir))))
  }

  /** Half the balance, truncated towards zero as in C. */
  function Tilt(t: Tree): int
    requires t.Node?
  {
    if Balance(t) >= 0 then Balance(t) / 2 else -((-Balance(t)) / 2)
  }

  /** (1 - b) / 2 in C for a tilt of one either way. */
  function TiltDir(b: int): Dir {
    b < 0
  }

  /** The child that is about to be rotated exists: the two sides differ by at most two. */
  predicate Adjustable(t: Tree) {
    t.Node? && -2 <= Balance(t) <= 2 && (Tilt(t) != 0 ==> Child(t, TiltDir(Tilt(t))).Node?)
  }

  function AdjustBalance(t: Tree): Tree
    requires Adjustable(t)
  {
    var b := Tilt(t);
    if b == 0 then SetHeight(t)
    else
      var dir := TiltDir(b);
      var c := Child(t, dir);
      var t' := if Balance(c) == -b then SetChild(t, dir, Rotate(c, !dir)) else t;
      var r := Rotate(t', dir);
      if r.Nil? then r else SetHeight(r)
  }

  /** The assertion in insertion: the new address lies in none of the ranges it is compared with. */
  predicate Clear(t: Tree, address: int) {
    t.Nil? ||
    if address < t.start then Clear(t.left, address)
    else address >= t.start + t.length && Clear(t.right, address)
  }

  // ---------------------------------------------------------------------
  // Heights
  // ---------------------------------------------------------------------

  /**
    Stored heights.  A fresh leaf stores -1, the height of no tree at all; every
    other node stores one more than the larger stored height below it, and the two
    differ by at most one.
   */
  predicate Balanced(t: Tree) {
    match t
    case Nil => true
    case Node(h, l, r, _, _) =>
      || (h == -1 && l.Nil? && r.Nil?)
      || (&& h == 1 + Max(Height(l), Height(r))
          && -1 <= Height(l) - Height(r) <= 1
          && Balanced(l) && Balanced(r))
  }

  lemma BalancedHeight(t: Tree)
    requires Balanced(t)
    ensures Height(t) >= -1
  {
  }

  /** A node that is in order except that one side may be two higher than the other. */
  predicate OnceTilted(t: Tree) {
    t.Node? && Balanced(t.left) && Balanced(t.right) && -2 <= Balance(t) <= 2
  }

  lemma TiltedIsAdjustable(t: Tree)
    requires OnceTilted(t)
    ensures Adjustable(t)
  {
    BalancedHeight(t.left);
    BalancedHeight(t.right);
  }

  /** The grandchild that a double rotation lifts exists. */
  lemma TiltedHasGrandchild(t: Tree)
    requires OnceTilted(t)
    ensures Adjustable(t)
    ensures var dir := TiltDir(Tilt(t));
            Tilt(t) != 0 && Balance(Child(t, dir)) == -Tilt(t) ==> Child(Child(t, dir), !dir).Node?
  {
    TiltedIsAdjustable(t);
    if Tilt(t) != 0 {
      var dir := TiltDir(Tilt(t));
      BalancedHeight(Child(t, !dir));
      assert Balanced(Child(t, dir));
      BalancedHeight(Child(Child(t, dir), dir));
    }
  }

  /** `t` leans by two towards `dir`. */
  predicate Leans(t: Tree, dir: Dir) {
    OnceTilted(t) && Height(Child(t, dir)) == Height(Child(t, !dir)) + 2
  }

  lemma {:induction false} SingleRotation(t: Tree, dir: Dir)
    requires Leans(t, dir) && Child(t, dir).Node?
    requires Height(Child(Child(t, dir), !dir)) <= Height(Child(Child(t, dir), dir))
    ensures Rotate(t, dir).Node?
    ensures var r := SetHeight(Rotate(t, dir));
            Balanced(r) && Height(Child(t, dir)) <= Height(r) <= Height(Child(t, dir)) + 1
  {
    BalancedHeight(Child(t, !dir));
    var c := Child(t, dir);
    assert Balanced(c) && c.height >= 1;
    var old' := SetHeight(SetChild(t, dir, Child(c, !dir)));
    assert Balanced(old');
    assert Rotate(t, dir) == SetChild(c, !dir, old');
  }

  lemma {:induction false} DoubleRotation(t: Tree, dir: Dir)
    requires Leans(t, dir) && Child(t, dir).Node?
    requires Height(Child(Child(t, dir), !dir)) > Height(Child(Child(t, dir), dir))
    ensures Child(Child(t, dir), !dir).Node?
    ensures var t' := SetChild(t, dir, Rotate(Child(t, dir), !dir));
            && Rotate(t', dir).Node?
            && var r := SetHeight(Rotate(t', dir));
               Balanced(r) && Height(r) == Height(Child(t, dir))
  {
    BalancedHeight(Child(t, !dir));
    var c := Child(t, dir);
    assert Balanced(c) && c.height >= 1;
    BalancedHeight(Child(c, dir));
    var g := Child(c, !dir);
    assert Balanced(g) && g.height >= 0;
    var c' := SetHeight(SetChild(c, !dir, Child(g, dir)));
    assert Balanced(c');
    var t' := SetChild(t, dir, Rotate(c, !dir));
    var old' := SetHeight(SetChild(t', dir, Child(g, !dir)));
    assert Balanced(old');
    assert Rotate(t', dir) == SetChild(SetChild(g, dir, c'), !dir, old');
  }

  /** Rebalancing restores the heights; the result is as high as the higher side or one more. */
  lemma {:induction false} AdjustRestoresBalance(t: Tree)
    requires OnceTilted(t)
    ensures Adjustable(t)
    ensures var r := AdjustBalance(t);
            && r.Node? && Balanced(r)
            && Max(Height(t.left), Height(t.right)) <= Height(r) <= 1 + Max(Height(t.left), Height(t.right))
            && (-1 <= Balance(t) <= 1 ==> Height(r) == 1 + Max(Height(t.left), Height(t.right)))
  {
    TiltedIsAdjustable(t);
    if Tilt(t) != 0 {
      var dir := TiltDir(Tilt(t));
      var c := Child(t, dir);
      assert Balanced(c);
      if Height(Child(c, !dir)) > Height(Child(c, dir)) {
        DoubleRotation(t, dir);
      } else {
        SingleRotation(t, dir);
      }
    }
  }

  /** hclib_memory_tree_insert */
  function Insert(t: Tree, address: int, length: nat): (r: Tree)
    requires Clear(t, address) && Balanced(t)
    ensures r.Node? && Balanced(r) && Height(t) <= Height(r) <= Height(t) + 1
  {
    if t.Nil? then Node(-1, Nil, Nil, address, length)
    else
      var t' := if address < t.start then t.(left := Insert(t.left, address, length))
                else t.(right := Insert(t.right, address, length));
      AdjustRestoresBalance(t');
      AdjustBalance(t')
  }

  // ---------------------------------------------------------------------
  // Contents
  // ---------------------------------------------------------------------

  /** The ranges from left to right. */
  function Ranges(t: Tree): seq<Range> {
    if t.Nil? then [] else Ranges(t.left) + [(t.start, t.length)] + Ranges(t.right)
  }

  lemma RotateKeepsRanges(t: Tree, dir: Dir)
    requires t.Node? && Child(t, dir).Node?
    ensures Rotate(t, dir).Node? && Ranges(Rotate(t, dir)) == Ranges(t)
  {
  }

  lemma AdjustKeepsRanges(t: Tree)
    requires OnceTilted(t)
    ensures Adjustable(t) && Ranges(AdjustBalance(t)) == Ranges(t)
  {
    TiltedIsAdjustable(t);
    if Tilt(t) != 0 {
      var dir := TiltDir(Tilt(t));
      var c := Child(t, dir);
      assert Balanced(c);
      if Balance(c) == -Tilt(t) {
        DoubleRotation(t, dir);
        RotateKeepsRanges(c, !dir);
        RotateKeepsRanges(SetChild(t, dir, Rotate(c, !dir)), dir);
      } else {
        RotateKeepsRanges(t, dir);
      }
    }
  }

  function End(r: Range): int {
    r.0 + r.1
  }

  predicate Holds(r: Range, address: int) {
    r.0 <= address < End(r)
  }

  predicate Disjoint(r: Range, q: Range) {
    End(r) <= q.0 || End(q) <= r.0
  }

  /** Ranges laid out from left to right without overlap: the search order. */
  predicate Sorted(rs: seq<Range>) {
    && (forall i :: 0 <= i < |rs| ==> rs[i].1 > 0)
    && (forall i, j :: 0 <= i < j < |rs| ==> End(rs[i]) <= rs[j].0)
  }

  lemma SortedParts(a: seq<Range>, r: Range, b: seq<Range>)
    requires Sorted(a + [r] + b)
    ensures Sorted(a) && Sorted(b) && r.1 > 0
    ensures forall i :: 0 <= i < |a| ==> End(a[i]) <= r.0
    ensures forall i :: 0 <= i < |b| ==> End(r) <= b[i].0
  {
    var s := a + [r] + b;
    assert forall i :: 0 <= i < |a| ==> a[i] == s[i];
    assert s[|a|] == r;
    assert forall i :: 0 <= i < |b| ==> b[i] == s[|a| + 1 + i];
  }

  lemma JoinSorted(a: seq<Range>, r: Range, b: seq<Range>)
    requires Sorted(a) && Sorted(b) && r.1 > 0
    requires forall i :: 0 <= i < |a| ==> End(a[i]) <= r.0
    requires forall i :: 0 <= i < |b| ==> End(r) <= b[i].0
    ensures Sorted(a + [r] + b)
  {
  }

  /** A new non-empty range that overlaps none of those present trips no assertion. */
  lemma {:induction false} DisjointIsClear(t: Tree, r: Range)
    requires Sorted(Ranges(t)) && r.1 > 0
    requires forall q <- Ranges(t) :: Disjoint(r, q)
    ensures Clear(t, r.0)
  {
    if t.Node? {
      SortedParts(Ranges(t.left), (t.start, t.length), Ranges(t.right));
      assert (t.start, t.length) in Ranges(t);
      if r.0 < t.start {
        DisjointIsClear(t.left, r);
      } else {
        DisjointIsClear(t.right, r);
      }
    }
  }

  /** `s` is `rs` with `r` inserted somewhere. */
  ghost predicate Adds(rs: seq<Range>, r: Range, s: seq<Range>) {
    exists k :: 0 <= k <= |rs| && s == rs[..k] + [r] + rs[k..]
  }

  /** Insertion adds the one range and keeps the search order. */
  lemma {:induction false} InsertAdds(t: Tree, r: Range)
    requires Balanced(t) && Sorted(Ranges(t)) && r.1 > 0
    requires forall q <- Ranges(t) :: Disjoint(r, q)
    ensures Clear(t, r.0)
    ensures Sorted(Ranges(Insert(t, r.0, r.1))) && Adds(Ranges(t), r, Ranges(Insert(t, r.0, r.1)))
  {
    DisjointIsClear(t, r);
    if t.Nil? {
      assert Ranges(Insert(t, r.0, r.1)) == [r] == [][..0] + [r] + [][0..];
    } else {
      var a, q, b := Ranges(t.left), (t.start, t.length), Ranges(t.right);
      SortedParts(a, q, b);
      assert q in Ranges(t);
      if r.0 < t.start {
        InsertAdds(t.left, r);
        var l := Insert(t.left, r.0, r.1);
        AdjustKeepsRanges(t.(left := l));
        AddedLeft(a, q, b, r, Ranges(l));
      } else {
        InsertAdds(t.right, r);
        var m := Insert(t.right, r.0, r.1);
        AdjustKeepsRanges(t.(right := m));
        AddedRight(a, q, b, r, Ranges(m));
      }
    }
  }

  lemma AddedLeft(a: seq<Range>, q: Range, b: seq<Range>, r: Range, a': seq<Range>)
    requires Adds(a, r, a') && Sorted(a') && Sorted(a + [q] + b) && End(r) <= q.0
    ensures Sorted(a' + [q] + b) && Adds(a + [q] + b, r, a' + [q] + b)
  {
    SortedParts(a, q, b);
    var k :| 0 <= k <= |a| && a' == a[..k] + [r] + a[k..];
    JoinSorted(a', q, b);
    var s := a + [q] + b;
    assert a' + [q] + b == s[..k] + [r] + s[k..];
  }

  lemma AddedRight(a: seq<Range>, q: Range, b: seq<Range>, r: Range, b': seq<Range>)
    requires Adds(b, r, b') && Sorted(b') && Sorted(a + [q] + b) && End(q) <= r.0
    ensures Sorted(a + [q] + b') && Adds(a + [q] + b, r, a + [q] + b')
  {
    SortedParts(a, q, b);
    var k :| 0 <= k <= |b| && b' == b[..k] + [r] + b[k..];
    SortedInserted(b, r, k);
    JoinSorted(a, q, b');
    AddsBehind(a + [q], b, r, k);
  }

  lemma SortedInserted(b: seq<Range>, r: Range, k: nat)
    requires k <= |b|
    ensures forall x :: x in b[..k] + [r] + b[k..] <==> x in b || x == r
  {
    assert b == b[..k] + b[k..];
  }

  lemma AddsBehind(front: seq<Range>, b: seq<Range>, r: Range, k: nat)
    requires k <= |b|
    ensures Adds(front + b, r, front + (b[..k] + [r] + b[k..]))
  {
    var s, n := front + b, |front| + k;
    assert s[..n] == front + b[..k];
    assert s[n..] == b[k..];
    assert front + (b[..k] + [r] + b[k..]) == s[..n] + [r] + s[n..];
  }

  // ---------------------------------------------------------------------
  // Lookup
  // ---------------------------------------------------------------------

  function Find(t: Tree, address: int): Option<Range> {
    if t.Nil? then None
    else if t.start <= address < t.start + t.length then Some((t.start, t.length))
    else if address < t.start then Find(t.left, address)
    else Find(t.right, address)
  }

  predicate SomeHolds(rs: seq<Range>, address: int) {
    exists r <- rs :: Holds(r, address)
  }

  lemma SomeHoldsParts(a: seq<Range>, q: Range, b: seq<Range>, address: int)
    ensures SomeHolds(a + [q] + b, address) <==> SomeHolds(a, address) || Holds(q, address) || SomeHolds(b, address)
  {
    var s := a + [q] + b;
    assert q in s;
    assert forall r <- s :: r in a || r == q || r in b;
    assert forall r <- a :: r in s;
    assert forall r <- b :: r in s;
  }

  /** In search order an address left of a node is held by none of the ranges from it on, and conversely. */
  lemma HeldOnOneSide(a: seq<Range>, q: Range, b: seq<Range>, address: int)
    requires Sorted(a + [q] + b)
    ensures address < q.0 ==> !SomeHolds(b, address)
    ensures address >= q.0 ==> !SomeHolds(a, address)
  {
    SortedParts(a, q, b);
  }

  /** In search order, lookup finds the range that holds the address if there is one. */
  lemma {:induction false} FindIsExact(t: Tree, address: int)
    requires Sorted(Ranges(t))
    ensures Find(t, address).Some? <==> exists r <- Ranges(t) :: Holds(r, address)
    ensures Find(t, address).Some? ==>
              Find(t, address).value in Ranges(t) && Holds(Find(t, address).value, address)
  {
    assert SomeHolds(Ranges(t), address) <==> exists r <- Ranges(t) :: Holds(r, address);
    if t.Node? {
      var a, q, b := Ranges(t.left), (t.start, t.length), Ranges(t.right);
      SomeHoldsParts(a, q, b, address);
      HeldOnOneSide(a, q, b, address);
      SortedParts(a, q, b);
      FindIsExact(t.left, address);
      FindIsExact(t.right, address);
    }
  }

  // ---------------------------------------------------------------------
  // True heights and sizes
  // ---------------------------------------------------------------------

  /** The length of the longest path; one node has height 0 and no tree has height -1. */
  function TrueHeight(t: Tree): int {
    if t.Nil? then -1 else 1 + Max(TrueHeight(t.left), TrueHeight(t.right))
  }

  function Size(t: Tree): nat {
    if t.Nil? then 0 else 1 + Size(t.left) + Size(t.right)
  }

  function Fib(n: nat): nat {
    if n < 2 then n else Fib(n - 1) + Fib(n - 2)
  }

  lemma {:induction false} FibMonotone(m: nat, n: nat)
    requires m <= n
    ensures Fib(m) <= Fib(n)
    decreases n
  {
    if m < n && n >= 2 {
      FibMonotone(m, n - 1);
    }
  }

  lemma FibSum(a: nat, b: nat, n: nat)
    requires a >= n && b >= n && (a > n || b > n)
    ensures Fib(a) + Fib(b) >= Fib(n + 2)
  {
    FibMonotone(n, a);
    FibMonotone(n, b);
    FibMonotone(n + 1, if a > n then a else b);
  }

  /** The stored height may be short of the true one, by one at most. */
  lemma {:induction false} StoredHeightIsClose(t: Tree)
    requires Balanced(t)
    ensures Height(t) <= TrueHeight(t) <= Height(t) + 1
  {
    if t.Node? && t.height != -1 {
      StoredHeightIsClose(t.left);
      StoredHeightIsClose(t.right);
    } else if t.Node? {
      BalancedHeight(t.left);
      BalancedHeight(t.right);
    }
  }

  lemma {:induction false} StoredHeightNeedsNodes(t: Tree)
    requires Balanced(t)
    ensures Height(t) >= -1 && Size(t) >= Fib(Height(t) + 3) - 1
  {
    BalancedHeight(t);
    if t.Node? && t.height != -1 {
      StoredHeightNeedsNodes(t.left);
      StoredHeightNeedsNodes(t.right);
      FibSum(Height(t.left) + 3, Height(t.right) + 3, t.height + 1);
    }
  }

  /** A tree of true height h has at least Fib(h + 2) - 1 nodes, so height is logarithmic in size. */
  lemma HeightIsLogarithmic(t: Tree)
    requires Balanced(t)
    ensures TrueHeight(t) >= -1 && Size(t) >= Fib(TrueHeight(t) + 2) - 1
  {
    StoredHeightIsClose(t);
    StoredHeightNeedsNodes(t);
    FibMonotone(TrueHeight(t) + 2, Height(t) + 3);
  }

  // ---------------------------------------------------------------------
  // Every tree built by insertion
  // ---------------------------------------------------------------------

  predicate PairwiseDisjoint(rs: seq<Range>) {
    && (forall i :: 0 <= i < |rs| ==> rs[i].1 > 0)
    && (forall i, j :: 0 <= i < j < |rs| ==> Disjoint(rs[i], rs[j]))
  }

  /** The tree that results from inserting `rs` in order, unless an assertion fails on the way. */
  function Build(rs: seq<Range>): (t: Option<Tree>)
    ensures t.Some? ==> Balanced(t.value)
  {
    if rs == [] then Some(Nil)
    else
      var r := rs[|rs| - 1];
      match Build(rs[..|rs| - 1])
      case None => None
      case Some(u) => if Clear(u, r.0) then Some(Insert(u, r.0, r.1)) else None
  }

  /** Inserting non-empty disjoint ranges trips no assertion and keeps exactly them, in search order. */
  lemma {:induction false} BuildKeepsTheRanges(rs: seq<Range>)
    requires PairwiseDisjoint(rs)
    ensures Build(rs).Some?
    ensures Sorted(Ranges(Build(rs).value)) && multiset(Ranges(Build(rs).value)) == multiset(rs)
    decreases |rs|
  {
    if rs != [] {
      var front, r := rs[..|rs| - 1], rs[|rs| - 1];
      assert rs == front + [r];
      BuildKeepsTheRanges(front);
      InsertKeepsTheRanges(Build(front).value, front, r);
    }
  }

  lemma InsertKeepsTheRanges(u: Tree, front: seq<Range>, r: Range)
    requires Balanced(u) && Sorted(Ranges(u)) && multiset(Ranges(u)) == multiset(front)
    requires PairwiseDisjoint(front + [r])
    ensures Clear(u, r.0)
    ensures Sorted(Ranges(Insert(u, r.0, r.1)))
    ensures multiset(Ranges(Insert(u, r.0, r.1))) == multiset(front + [r])
  {
    var rs := front + [r];
    assert rs[|front|] == r;
    forall q <- Ranges(u)
      ensures Disjoint(r, q)
    {
      assert q in multiset(Ranges(u));
      var i :| 0 <= i < |front| && front[i] == q;
      assert Disjoint(rs[i], rs[|front|]);
    }
    InsertAdds(u, r);
    AddsOne(Ranges(u), r, Ranges(Insert(u, r.0, r.1)));
  }

  /**
    In a tree built by inserting non-empty disjoint ranges lookup succeeds exactly
    for the addresses of those ranges, and the height is logarithmic in their number.
   */
  lemma BuiltTreesAreSound(rs: seq<Range>, address: int)
    requires PairwiseDisjoint(rs)
    ensures Build(rs).Some?
    ensures Find(Build(rs).value, address).Some? <==> exists r <- rs :: Holds(r, address)
    ensures TrueHeight(Build(rs).value) >= -1
    ensures |rs| >= Fib(TrueHeight(Build(rs).value) + 2) - 1
  {
    BuildKeepsTheRanges(rs);
    var t := Build(rs).value;
    SizeIsRanges(t);
    SameMultisetSameSize(Ranges(t), rs);
    HeightIsLogarithmic(t);
    FindIsExact(t, address);
    SameMultisetSameElements(Ranges(t), rs);
  }

  lemma SameMultisetSameElements(a: seq<Range>, b: seq<Range>)
    requires multiset(a) == multiset(b)
    ensures forall r :: r in a <==> r in b
  {
    assert forall r :: r in a <==> r in multiset(a);
    assert forall r :: r in b <==> r in multiset(b);
  }

  lemma AddsOne(rs: seq<Range>, r: Range, s: seq<Range>)
    requires Adds(rs, r, s)
    ensures multiset(s) == multiset(rs) + multiset{r}
  {
    var k :| 0 <= k <= |rs| && s == rs[..k] + [r] + rs[k..];
    assert rs == rs[..k] + rs[k..];
  }

  lemma SizeIsRanges(t: Tree)
    ensures |Ranges(t)| == Size(t)
  {
  }

  lemma SameMultisetSameSize(a: seq<Range>, b: seq<Range>)
    requires multiset(a) == multiset(b)
    ensures |a| == |b|
  {
    assert |multiset(a)| == |a| && |multiset(b)| == |b|;
  }
}
