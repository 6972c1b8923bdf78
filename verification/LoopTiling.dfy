/**
  What the parallel loops of src/hclib.c and inc/hclib-forasync.h run: a domain is
  one to three nested strided loops, and each scheme cuts it into tiles that are run
  as tasks.  LoopTasks has the functions that do so.
 */
module LoopTiling {
  import opened Arithmetic

  datatype Loop = Loop(low: int, high: int, stride: int, tile: int)

  type Domain = seq<Loop>
  type Tuple = seq<int>

  /** Every loop makes progress. */
  predicate Strided(d: Domain) {
    forall k :: 0 <= k < |d| ==> d[k].stride >= 1
  }

  /** The sequential loop meets `i`. */
  predicate InLoop(l: Loop, i: int)
    requires l.stride >= 1
  {
    l.low <= i < l.high && (i - l.low) % l.stride == 0
  }

  predicate In(d: Domain, t: Tuple)
    requires Strided(d)
  {
    if d == [] then t == []
    else t != [] && InLoop(d[0], t[0]) && In(d[1..], t[1..])
  }

  // ---------------------------------------------------------------------
  // The sequential loops
  // ---------------------------------------------------------------------

  /** The tuples below one value of the outermost index. */
  function Nest(i: int, ts: seq<Tuple>): (r: seq<Tuple>)
    ensures |r| == |ts|
  {
    seq(|ts|, k requires 0 <= k < |ts| => [i] + ts[k])
  }

  function Distance(d: Domain): nat {
    if d == [] || d[0].high <= d[0].low then 0 else d[0].high - d[0].low
  }

  /** The nested loops run with the first one starting at `low`. */
  function StartAt(d: Domain, low: int): Domain
    requires d != []
  {
    [d[0].(low := low)] + d[1..]
  }

  /** The index tuples in the order in which the sequential nested loops run them. */
  function Tuples(d: Domain): seq<Tuple>
    requires Strided(d)
    decreases |d|, Distance(d)
  {
    if d == [] then [[]]
    else if d[0].low >= d[0].high then []
    else Nest(d[0].low, Tuples(d[1..])) + Tuples(StartAt(d, d[0].low + d[0].stride))
  }

  lemma {:induction false} NestCount(i: int, ts: seq<Tuple>, t: Tuple)
    ensures multiset(Nest(i, ts))[t] == if t != [] && t[0] == i then multiset(ts)[t[1..]] else 0
    decreases |ts|
  {
    if ts != [] {
      var front, x := ts[..|ts| - 1], ts[|ts| - 1];
      NestCount(i, front, t);
      assert ts == front + [x];
      assert Nest(i, ts) == Nest(i, front) + [[i] + x];
      assert t != [] ==> t == [t[0]] + t[1..];
      assert ([i] + x)[1..] == x;
    } else {
      assert Nest(i, ts) == [];
    }
  }

  /** The loop from `low` meets `low` and what the loop from the next index meets. */
  lemma InLoopSteps(l: Loop, i: int)
    requires l.stride >= 1 && l.low < l.high
    ensures InLoop(l, i) <==> i == l.low || InLoop(l.(low := l.low + l.stride), i)
  {
    RemainderOfShift(i - l.low, 1, l.stride);
    if l.low <= i < l.low + l.stride {
      Remainder(i - l.low, 0, i - l.low, l.stride);
    }
  }

  /** The sequential loops run each tuple of the domain exactly once. */
  lemma {:induction false} TuplesOnce(d: Domain, t: Tuple)
    requires Strided(d)
    ensures multiset(Tuples(d))[t] == if In(d, t) then 1 else 0
    decreases |d|, Distance(d)
  {
    if d != [] && d[0].low < d[0].high {
      var l, rest, next := d[0], d[1..], StartAt(d, d[0].low + d[0].stride);
      TuplesOnce(next, t);
      NestCount(l.low, Tuples(rest), t);
      if t != [] {
        TuplesOnce(rest, t[1..]);
        InLoopSteps(l, t[0]);
        assert next[1..] == rest;
      }
    }
  }

  /** `t` comes before `u` in nested loops: the outermost index that differs is smaller. */
  predicate Precedes(t: Tuple, u: Tuple) {
    t != [] && u != [] && (t[0] < u[0] || (t[0] == u[0] && Precedes(t[1..], u[1..])))
  }

  lemma TuplesAreIn(d: Domain, i: nat)
    requires Strided(d) && i < |Tuples(d)|
    ensures In(d, Tuples(d)[i])
  {
    TuplesOnce(d, Tuples(d)[i]);
    assert Tuples(d)[i] in multiset(Tuples(d));
  }

  /** The sequential loops run the tuples in increasing order. */
  lemma {:induction false} TuplesInOrder(d: Domain, i: nat, j: nat)
    requires Strided(d) && i < j < |Tuples(d)|
    ensures Precedes(Tuples(d)[i], Tuples(d)[j])
    decreases |d|, Distance(d)
  {
    var rest, next := d[1..], StartAt(d, d[0].low + d[0].stride);
    var n := |Tuples(rest)|;
    if j < n {
      TuplesInOrder(rest, i, j);
      assert Tuples(d)[i] == [d[0].low] + Tuples(rest)[i] && Tuples(d)[j] == [d[0].low] + Tuples(rest)[j];
    } else {
      assert Tuples(d)[j] == Tuples(next)[j - n];
      if i < n {
        assert Tuples(d)[i] == [d[0].low] + Tuples(rest)[i];
        TuplesAreIn(next, j - n);
      } else {
        assert Tuples(d)[i] == Tuples(next)[i - n];
        TuplesInOrder(next, i - n, j - n);
      }
    }
  }

  // ---------------------------------------------------------------------
  // Tiles
  // ---------------------------------------------------------------------

  predicate AllStrided(tiles: seq<Domain>) {
    forall k :: 0 <= k < |tiles| ==> Strided(tiles[k])
  }

  /** How many of the tiles run `t`. */
  function Covers(tiles: seq<Domain>, t: Tuple): nat
    requires AllStrided(tiles)
  {
    if tiles == [] then 0
    else (if In(tiles[0], t) then 1 else 0) + Covers(tiles[1..], t)
  }

  /** The tuples that the tiles run, tile after tile. */
  function AllTuples(tiles: seq<Domain>): seq<Tuple>
    requires AllStrided(tiles)
  {
    if tiles == [] then [] else Tuples(tiles[0]) + AllTuples(tiles[1..])
  }

  lemma {:induction false} AllTuplesCount(tiles: seq<Domain>, t: Tuple)
    requires AllStrided(tiles)
    ensures multiset(AllTuples(tiles))[t] == Covers(tiles, t)
    decreases |tiles|
  {
    if tiles != [] {
      TuplesOnce(tiles[0], t);
      AllTuplesCount(tiles[1..], t);
    }
  }

  lemma {:induction false} CoversConcat(a: seq<Domain>, b: seq<Domain>, t: Tuple)
    requires AllStrided(a) && AllStrided(b)
    ensures Covers(a + b, t) == Covers(a, t) + Covers(b, t)
    decreases |a|
  {
    if a == [] {
      assert a + b == b;
    } else {
      CoversConcat(a[1..], b, t);
      assert (a + b)[1..] == a[1..] + b;
    }
  }

  lemma {:induction false} AllTuplesConcat(a: seq<Domain>, b: seq<Domain>)
    requires AllStrided(a) && AllStrided(b)
    ensures AllTuples(a + b) == AllTuples(a) + AllTuples(b)
    decreases |a|
  {
    if a == [] {
      assert a + b == b;
    } else {
      AllTuplesConcat(a[1..], b);
      assert (a + b)[1..] == a[1..] + b;
    }
  }

  /** The tiles together run each tuple of the domain exactly once, and no other. */
  ghost predicate Exact(tiles: seq<Domain>, d: Domain)
    requires AllStrided(tiles) && Strided(d)
  {
    forall t :: Covers(tiles, t) == if In(d, t) then 1 else 0
  }

  /** Exact tiles run the same tuples the same number of times as the sequential loops. */
  lemma ExactRunsTheSame(tiles: seq<Domain>, d: Domain)
    requires AllStrided(tiles) && Strided(d)
    ensures Exact(tiles, d) <==> multiset(AllTuples(tiles)) == multiset(Tuples(d))
  {
    forall t
      ensures multiset(AllTuples(tiles))[t] == Covers(tiles, t)
      ensures multiset(Tuples(d))[t] == if In(d, t) then 1 else 0
    {
      AllTuplesCount(tiles, t);
      TuplesOnce(d, t);
    }
    if multiset(AllTuples(tiles)) == multiset(Tuples(d)) {
      forall t
        ensures Covers(tiles, t) == if In(d, t) then 1 else 0
      {
        assert multiset(AllTuples(tiles))[t] == multiset(Tuples(d))[t];
      }
    }
  }

  // ---------------------------------------------------------------------
  // Recursive splitting
  // ---------------------------------------------------------------------

  predicate Long(l: Loop) {
    l.high - l.low > l.tile
  }

  /** The middle of the range, rounded towards zero as in C. */
  function Mid(l: Loop): int {
    var s := l.high + l.low;
    if s >= 0 then s / 2 else -((-s) / 2)
  }

  /** The first loop longer than its tile; |d| if there is none. */
  function SplitAt(d: Domain): (k: nat)
    ensures k <= |d| && (k < |d| ==> Long(d[k])) && forall j :: 0 <= j < k ==> !Long(d[j])
  {
    if d == [] || Long(d[0]) then 0
    else
      var k := SplitAt(d[1..]);
      assert forall j :: 1 <= j < |d| ==> d[j] == d[1..][j - 1];
      k + 1
  }

  function Lower(d: Domain, k: nat): Domain
    requires k < |d|
  {
    d[k := d[k].(high := Mid(d[k]))]
  }

  function Upper(d: Domain, k: nat): Domain
    requires k < |d|
  {
    d[k := d[k].(low := Mid(d[k]))]
  }

  /** Every tile size is at least one. */
  predicate Tiled(d: Domain) {
    forall k :: 0 <= k < |d| ==> d[k].tile >= 1
  }

  /** The lengths of all loops together. */
  function Extent(d: Domain): nat {
    if d == [] then 0 else Distance(d) + Extent(d[1..])
  }

  lemma {:induction false} SplitShrinks(d: Domain, k: nat)
    requires k < |d| && Long(d[k]) && d[k].tile >= 1
    ensures d[k].low < Mid(d[k]) < d[k].high
    ensures Extent(Lower(d, k)) < Extent(d) && Extent(Upper(d, k)) < Extent(d)
    decreases k
  {
    if k == 0 {
      assert Lower(d, k)[1..] == d[1..] && Upper(d, k)[1..] == d[1..];
    } else {
      SplitShrinks(d[1..], k - 1);
      assert Lower(d, k)[1..] == Lower(d[1..], k - 1) && Upper(d, k)[1..] == Upper(d[1..], k - 1);
    }
  }

  /** The tiles of the recursive scheme, the half that is worked on in place first. */
  function Leaves(d: Domain): (tiles: seq<Domain>)
    requires Tiled(d)
    decreases Extent(d)
  {
    var k := SplitAt(d);
    if k == |d| then [d]
    else
      SplitShrinks(d, k);
      Leaves(Lower(d, k)) + Leaves(Upper(d, k))
  }

  /** Every leaf fits the tile size in each dimension and keeps strides and tile sizes. */
  lemma {:induction false} LeavesFit(d: Domain)
    requires Tiled(d)
    ensures forall k :: 0 <= k < |Leaves(d)| ==>
              && |Leaves(d)[k]| == |d|
              && forall j :: 0 <= j < |d| ==>
                   && Leaves(d)[k][j].high - Leaves(d)[k][j].low <= d[j].tile == Leaves(d)[k][j].tile
                   && Leaves(d)[k][j].stride == d[j].stride
    decreases Extent(d)
  {
    var k := SplitAt(d);
    if k < |d| {
      SplitShrinks(d, k);
      LeavesFit(Lower(d, k));
      LeavesFit(Upper(d, k));
    }
  }

  predicate UnitStride(d: Domain) {
    forall k :: 0 <= k < |d| ==> d[k].stride == 1
  }

  /** Every split along the way falls on an index that the loop meets. */
  predicate SplitsAligned(d: Domain)
    requires Tiled(d) && Strided(d)
    decreases Extent(d)
  {
    var k := SplitAt(d);
    k < |d| ==>
      && (Mid(d[k]) - d[k].low) % d[k].stride == 0
      && (SplitShrinks(d, k); SplitsAligned(Lower(d, k)) && SplitsAligned(Upper(d, k)))
  }

  /** A split on an index of the loop divides the loop between the halves. */
  lemma LoopDivides(l: Loop, m: int, i: int)
    requires l.stride >= 1 && l.low <= m <= l.high && (m - l.low) % l.stride == 0
    ensures InLoop(l, i) <==> InLoop(l.(high := m), i) || InLoop(l.(low := m), i)
    ensures !(InLoop(l.(high := m), i) && InLoop(l.(low := m), i))
  {
    var c := (m - l.low) / l.stride;
    assert m - l.low == l.stride * c;
    RemainderOfShift(i - l.low, c, l.stride);
  }

  lemma {:induction false} SplitDivides(d: Domain, k: nat, t: Tuple)
    requires k < |d| && Strided(d) && d[k].low < Mid(d[k]) < d[k].high
    requires (Mid(d[k]) - d[k].low) % d[k].stride == 0
    ensures In(d, t) <==> In(Lower(d, k), t) || In(Upper(d, k), t)
    ensures !(In(Lower(d, k), t) && In(Upper(d, k), t))
    decreases k
  {
    if k == 0 {
      assert Lower(d, k)[1..] == d[1..] && Upper(d, k)[1..] == d[1..];
      if t != [] {
        LoopDivides(d[0], Mid(d[0]), t[0]);
      }
    } else {
      assert Lower(d, k)[1..] == Lower(d[1..], k - 1) && Upper(d, k)[1..] == Upper(d[1..], k - 1);
      if t != [] {
        SplitDivides(d[1..], k - 1, t[1..]);
      }
    }
  }

  lemma LeavesStrided(d: Domain)
    requires Tiled(d) && Strided(d)
    ensures AllStrided(Leaves(d))
  {
    LeavesFit(d);
    forall k, j | 0 <= k < |Leaves(d)| && 0 <= j < |Leaves(d)[k]|
      ensures Leaves(d)[k][j].stride >= 1
    {
      assert Leaves(d)[k][j].stride == d[j].stride;
    }
  }

  lemma {:induction false} LeavesCover(d: Domain, t: Tuple)
    requires Tiled(d) && Strided(d) && SplitsAligned(d)
    ensures AllStrided(Leaves(d))
    ensures Covers(Leaves(d), t) == if In(d, t) then 1 else 0
    decreases Extent(d)
  {
    LeavesStrided(d);
    var k := SplitAt(d);
    if k < |d| {
      SplitShrinks(d, k);
      var a, b := Lower(d, k), Upper(d, k);
      LeavesCover(a, t);
      LeavesCover(b, t);
      CoversConcat(Leaves(a), Leaves(b), t);
      SplitDivides(d, k, t);
    }
  }

  lemma {:induction false} UnitStrideIsAligned(d: Domain)
    requires Tiled(d) && UnitStride(d)
    ensures SplitsAligned(d)
    decreases Extent(d)
  {
    var k := SplitAt(d);
    if k < |d| {
      SplitShrinks(d, k);
      UnitStrideIsAligned(Lower(d, k));
      UnitStrideIsAligned(Upper(d, k));
      assert (Mid(d[k]) - d[k].low) % 1 == 0;
    }
  }

  /** Some loop is empty, so that no tuple is run at all. */
  predicate SomeEmpty(d: Domain) {
    exists k :: 0 <= k < |d| && d[k].low >= d[k].high
  }

  lemma {:induction false} EmptyRunsNothing(d: Domain, t: Tuple)
    requires Strided(d) && SomeEmpty(d)
    ensures !In(d, t)
  {
    if t != [] && d[0].low < d[0].high {
      var k :| 0 <= k < |d| && d[k].low >= d[k].high;
      assert d[1..][k - 1] == d[k];
      EmptyRunsNothing(d[1..], t[1..]);
    }
  }

  /** An empty loop is never split, so every leaf has it. */
  lemma {:induction false} EmptyLeaves(d: Domain, t: Tuple)
    requires Tiled(d) && Strided(d) && SomeEmpty(d)
    ensures AllStrided(Leaves(d)) && Covers(Leaves(d), t) == 0
    decreases Extent(d)
  {
    LeavesStrided(d);
    EmptyRunsNothing(d, t);
    var k := SplitAt(d);
    if k < |d| {
      SplitShrinks(d, k);
      var a, b := Lower(d, k), Upper(d, k);
      var j :| 0 <= j < |d| && d[j].low >= d[j].high;
      assert a[j] == d[j] && b[j] == d[j];
      EmptyLeaves(a, t);
      EmptyLeaves(b, t);
      CoversConcat(Leaves(a), Leaves(b), t);
    }
  }

  /** The tuple at which the nested loops start. */
  function Corner(d: Domain): Tuple {
    if d == [] then [] else [d[0].low] + Corner(d[1..])
  }

  /** Some index of `t` lies between those that the loops meet. */
  predicate OffGrid(d: Domain, t: Tuple)
    requires Strided(d)
  {
    d != [] && t != [] && ((t[0] - d[0].low) % d[0].stride != 0 || OffGrid(d[1..], t[1..]))
  }

  lemma {:induction false} OffGridIsOut(d: Domain, t: Tuple)
    requires Strided(d) && OffGrid(d, t)
    ensures !In(d, t)
  {
    if OffGrid(d[1..], t[1..]) {
      OffGridIsOut(d[1..], t[1..]);
    }
  }

  lemma {:induction false} CornerIsIn(d: Domain)
    requires Strided(d) && !SomeEmpty(d)
    ensures In(d, Corner(d))
  {
    if d != [] {
      forall k | 0 <= k < |d[1..]|
        ensures d[1..][k].low < d[1..][k].high
      {
        assert d[1..][k] == d[k + 1];
      }
      CornerIsIn(d[1..]);
      assert Corner(d)[1..] == Corner(d[1..]);
    }
  }

  lemma {:induction false} LowerCorner(d: Domain, k: nat)
    requires k < |d|
    ensures Corner(Lower(d, k)) == Corner(d)
  {
    if k == 0 {
      assert Lower(d, k)[1..] == d[1..];
    } else {
      LowerCorner(d[1..], k - 1);
      assert Lower(d, k)[1..] == Lower(d[1..], k - 1);
    }
  }

  lemma {:induction false} CornerIsRun(d: Domain)
    requires Tiled(d) && Strided(d) && !SomeEmpty(d)
    ensures AllStrided(Leaves(d)) && Covers(Leaves(d), Corner(d)) >= 1
    decreases Extent(d)
  {
    LeavesStrided(d);
    CornerIsIn(d);
    var k := SplitAt(d);
    if k < |d| {
      SplitShrinks(d, k);
      LowerCorner(d, k);
      CornerIsRun(Lower(d, k));
      LeavesStrided(Upper(d, k));
      CoversConcat(Leaves(Lower(d, k)), Leaves(Upper(d, k)), Corner(d));
    }
  }

  /** A split off the grid makes the upper half start at an index that the loop skips. */
  lemma {:induction false} UpperCornerOffGrid(d: Domain, k: nat)
    requires k < |d| && Strided(d) && (Mid(d[k]) - d[k].low) % d[k].stride != 0
    ensures OffGrid(d, Corner(Upper(d, k)))
  {
    var c := Corner(Upper(d, k));
    if k == 0 {
      assert c[0] == Mid(d[0]);
    } else {
      UpperCornerOffGrid(d[1..], k - 1);
      assert Upper(d, k)[1..] == Upper(d[1..], k - 1);
      assert c[1..] == Corner(Upper(d[1..], k - 1));
    }
  }

  /** An aligned split keeps the grid in both halves. */
  lemma {:induction false} HalvesKeepGrid(d: Domain, k: nat, t: Tuple)
    requires k < |d| && Strided(d) && (Mid(d[k]) - d[k].low) % d[k].stride == 0
    ensures OffGrid(Lower(d, k), t) ==> OffGrid(d, t)
    ensures OffGrid(Upper(d, k), t) ==> OffGrid(d, t)
  {
    if t != [] {
      if k == 0 {
        assert Lower(d, k)[1..] == d[1..] && Upper(d, k)[1..] == d[1..];
        var c := (Mid(d[0]) - d[0].low) / d[0].stride;
        assert Mid(d[0]) - d[0].low == d[0].stride * c;
        RemainderOfShift(t[0] - d[0].low, c, d[0].stride);
      } else {
        assert Lower(d, k)[1..] == Lower(d[1..], k - 1) && Upper(d, k)[1..] == Upper(d[1..], k - 1);
        HalvesKeepGrid(d[1..], k - 1, t[1..]);
      }
    }
  }

  /** Where a split is off the grid, some tuple is run that the sequential loops skip. */
  lemma {:induction false} StrayTuple(d: Domain) returns (t: Tuple)
    requires Tiled(d) && Strided(d) && !SomeEmpty(d) && !SplitsAligned(d)
    ensures AllStrided(Leaves(d)) && Covers(Leaves(d), t) >= 1 && OffGrid(d, t)
    decreases Extent(d)
  {
    LeavesStrided(d);
    var k := SplitAt(d);
    SplitShrinks(d, k);
    var a, b := Lower(d, k), Upper(d, k);
    LeavesStrided(a);
    LeavesStrided(b);
    if (Mid(d[k]) - d[k].low) % d[k].stride != 0 {
      t := Corner(b);
      CornerIsRun(b);
      UpperCornerOffGrid(d, k);
    } else {
      if !SplitsAligned(a) {
        t := StrayTuple(a);
      } else {
        t := StrayTuple(b);
      }
      HalvesKeepGrid(d, k, t);
    }
    CoversConcat(Leaves(a), Leaves(b), t);
  }

  /**
    The recursive scheme runs what the sequential loops run exactly when every split
    falls on an index of its loop, or there is nothing to run.
   */
  lemma RecursiveIsExactIff(d: Domain)
    requires Tiled(d) && Strided(d)
    ensures AllStrided(Leaves(d))
    ensures Exact(Leaves(d), d) <==> SplitsAligned(d) || SomeEmpty(d)
  {
    LeavesStrided(d);
    if SomeEmpty(d) {
      forall t
        ensures Covers(Leaves(d), t) == if In(d, t) then 1 else 0
      {
        EmptyLeaves(d, t);
        EmptyRunsNothing(d, t);
      }
    } else if SplitsAligned(d) {
      forall t
        ensures Covers(Leaves(d), t) == if In(d, t) then 1 else 0
      {
        LeavesCover(d, t);
      }
    } else {
      var t := StrayTuple(d);
      OffGridIsOut(d, t);
      assert !Exact(Leaves(d), d);
    }
  }

  /**
    All splits of a loop of `length` indices fall on multiples of the stride.  This
    takes halving the length until it fits the tile, and nothing else.
   */
  predicate HalvesEvenly(length: int, tile: int, stride: int)
    requires tile >= 1 && stride >= 1
    decreases length
  {
    length > tile ==>
      && (length / 2) % stride == 0
      && HalvesEvenly(length / 2, tile, stride)
      && HalvesEvenly(length - length / 2, tile, stride)
  }

  predicate LoopHalvesEvenly(l: Loop)
    requires l.tile >= 1 && l.stride >= 1
  {
    HalvesEvenly(l.high - l.low, l.tile, l.stride)
  }

  lemma LoopHalves(l: Loop)
    requires l.low >= 0 && l.tile >= 1 && l.stride >= 1 && Long(l)
    ensures l.low < Mid(l) < l.high
    ensures LoopHalvesEvenly(l) <==>
              && (Mid(l) - l.low) % l.stride == 0
              && LoopHalvesEvenly(l.(high := Mid(l))) && LoopHalvesEvenly(l.(low := Mid(l)))
  {
    assert Mid(l) - l.low == (l.high - l.low) / 2;
  }

  predicate FromZero(d: Domain) {
    forall k :: 0 <= k < |d| ==> d[k].low >= 0
  }

  ghost predicate Each(d: Domain, p: Loop -> bool) {
    forall k :: 0 <= k < |d| ==> p(d[k])
  }

  /** A property of single loops after a split, if the loop that is split has it when both halves do. */
  lemma SplitEach(d: Domain, k: nat, p: Loop -> bool, fits: bool)
    requires k < |d|
    requires p(d[k]) <==> fits && p(d[k].(high := Mid(d[k]))) && p(d[k].(low := Mid(d[k])))
    ensures Each(d, p) <==> fits && Each(Lower(d, k), p) && Each(Upper(d, k), p)
  {
    var a, b := Lower(d, k), Upper(d, k);
    if Each(d, p) {
      forall j | 0 <= j < |d|
        ensures p(a[j]) && p(b[j])
      {
        assert p(d[j]) && p(d[k]);
      }
    }
    if fits && Each(a, p) && Each(b, p) {
      forall j | 0 <= j < |d|
        ensures p(d[j])
      {
        assert p(a[j]) && p(b[j]) && p(a[k]) && p(b[k]);
      }
    }
  }

  predicate HalvesToTheTile(l: Loop) {
    l.tile >= 1 && l.stride >= 1 && LoopHalvesEvenly(l)
  }

  /** Every loop halves evenly. */
  ghost predicate AllHalveEvenly(d: Domain) {
    Each(d, HalvesToTheTile)
  }

  lemma SplitKeepsShape(d: Domain, k: nat)
    requires Tiled(d) && Strided(d) && FromZero(d) && k < |d| && d[k].low < Mid(d[k])
    ensures Tiled(Lower(d, k)) && Strided(Lower(d, k)) && FromZero(Lower(d, k))
    ensures Tiled(Upper(d, k)) && Strided(Upper(d, k)) && FromZero(Upper(d, k))
  {
  }

  /**
    From zero up, whether all splits are aligned is a matter of each loop by itself,
    of its length, its tile and its stride.
   */
  lemma {:induction false} AlignedIffHalvesEvenly(d: Domain)
    requires Tiled(d) && Strided(d) && FromZero(d)
    ensures SplitsAligned(d) <==> AllHalveEvenly(d)
    decreases Extent(d)
  {
    var k := SplitAt(d);
    if k < |d| {
      SplitShrinks(d, k);
      SplitKeepsShape(d, k);
      LoopHalves(d[k]);
      SplitEach(d, k, HalvesToTheTile, (Mid(d[k]) - d[k].low) % d[k].stride == 0);
      AlignedIffHalvesEvenly(Lower(d, k));
      AlignedIffHalvesEvenly(Upper(d, k));
    }
  }

  /** The recursive scheme from zero up: exact if and only if every loop halves evenly or some loop is empty. */
  lemma RecursiveFromZeroIsExactIff(d: Domain)
    requires Tiled(d) && Strided(d) && FromZero(d)
    ensures AllStrided(Leaves(d))
    ensures Exact(Leaves(d), d) <==> AllHalveEvenly(d) || SomeEmpty(d)
  {
    RecursiveIsExactIff(d);
    AlignedIffHalvesEvenly(d);
  }

  /** With stride one the recursive scheme runs what the sequential loops run. */
  lemma RecursiveRunsTheSame(d: Domain)
    requires Tiled(d) && UnitStride(d)
    ensures AllStrided(Leaves(d)) && Exact(Leaves(d), d)
    ensures multiset(AllTuples(Leaves(d))) == multiset(Tuples(d))
  {
    UnitStrideIsAligned(d);
    RecursiveIsExactIff(d);
    ExactRunsTheSame(Leaves(d), d);
  }

  /** With a longer stride a split can fall between two indices: from 0 to 6 by 2, tiles of 3 split at 3. */
  lemma RecursiveCanStray()
    ensures var d := [Loop(0, 6, 2, 3)]; AllStrided(Leaves(d)) && !Exact(Leaves(d), d)
  {
    var d := [Loop(0, 6, 2, 3)];
    assert SplitAt(d) == 0 && Mid(d[0]) == 3;
    RecursiveIsExactIff(d);
  }
}
