/**
  The parallel loop functions of src/hclib.c: the runners, the recursive scheme that
  overwrites its own domain, and the flat schemes.  The calls of the loop body are
  returned as a sequence of index tuples; the calls of a spawned task are those that
  the task makes whenever it is run.
 */
module LoopTasks {
  import opened LoopTiling
  import opened LoopChunks

  // ---------------------------------------------------------------------
  // Runners
  // ---------------------------------------------------------------------

  /** The tuples `ts` with the indices `p` of the enclosing loops in front. */
  function Prefixed(p: Tuple, ts: seq<Tuple>): (r: seq<Tuple>)
    ensures |r| == |ts|
  {
    seq(|ts|, k requires 0 <= k < |ts| => p + ts[k])
  }

  /** What a loop at `i` still runs, inside loops that stand at `p` and around the loops `rest`. */
  function LoopRuns(p: Tuple, l: Loop, rest: Domain, i: int): seq<Tuple>
    requires l.stride >= 1 && Strided(rest)
    decreases l.high - i
  {
    if i >= l.high then []
    else Prefixed(p + [i], Tuples(rest)) + LoopRuns(p, l, rest, i + l.stride)
  }

  /** One turn of a loop in the tuples of its domain. */
  lemma TuplesTurn(p: Tuple, l: Loop, rest: Domain, i: int)
    requires l.stride >= 1 && Strided(rest) && i < l.high
    ensures Prefixed(p, Tuples([l.(low := i)] + rest)) ==
            Prefixed(p + [i], Tuples(rest)) + Prefixed(p, Tuples([l.(low := i + l.stride)] + rest))
  {
    var d := [l.(low := i)] + rest;
    assert d[1..] == rest;
    assert StartAt(d, i + l.stride) == [l.(low := i + l.stride)] + rest;
    PrefixedNest(p, i, Tuples(rest));
    PrefixedConcat(p, Nest(i, Tuples(rest)), Tuples(StartAt(d, i + l.stride)));
  }

  lemma {:induction false} LoopRunsAreTuples(p: Tuple, l: Loop, rest: Domain, i: int)
    requires l.stride >= 1 && Strided(rest)
    ensures LoopRuns(p, l, rest, i) == Prefixed(p, Tuples([l.(low := i)] + rest))
    decreases l.high - i
  {
    if i < l.high {
      TuplesTurn(p, l, rest, i);
      LoopRunsAreTuples(p, l, rest, i + l.stride);
    }
  }

  lemma PrefixedNest(p: Tuple, i: int, ts: seq<Tuple>)
    ensures Prefixed(p, Nest(i, ts)) == Prefixed(p + [i], ts)
  {
    assert forall k :: 0 <= k < |ts| ==> p + ([i] + ts[k]) == (p + [i]) + ts[k];
  }

  lemma PrefixedConcat(p: Tuple, a: seq<Tuple>, b: seq<Tuple>)
    ensures Prefixed(p, a + b) == Prefixed(p, a) + Prefixed(p, b)
  {
  }

  lemma WholeLoop(p: Tuple, l: Loop, rest: Domain)
    requires l.stride >= 1 && Strided(rest)
    ensures LoopRuns(p, l, rest, l.low) == Prefixed(p, Tuples([l] + rest))
    ensures p == [] ==> LoopRuns(p, l, rest, l.low) == Tuples([l] + rest)
  {
    LoopRunsAreTuples(p, l, rest, l.low);
    assert l.(low := l.low) == l;
    var ts := Tuples([l] + rest);
    assert forall k :: 0 <= k < |ts| ==> [] + ts[k] == ts[k];
  }

  lemma LineRuns(p: Tuple, m: Loop)
    requires m.stride >= 1
    ensures LoopRuns(p, m, [], m.low) == Prefixed(p, Tuples([m]))
  {
    WholeLoop(p, m, []);
    assert [m] + [] == [m];
  }

  lemma PlaneRuns(p: Tuple, m: Loop, n: Loop)
    requires m.stride >= 1 && n.stride >= 1
    ensures LoopRuns(p, m, [n], m.low) == Prefixed(p, Tuples([m, n]))
  {
    WholeLoop(p, m, [n]);
    assert [m] + [n] == [m, n];
  }

  lemma PointRuns(p: Tuple)
    ensures Prefixed(p, Tuples([])) == [p]
  {
    assert p + [] == p;
  }

  /** One turn of a loop of a runner. */
  lemma RunTurn(p: Tuple, l: Loop, rest: Domain, i: int, made: seq<Tuple>, more: seq<Tuple>)
    requires l.stride >= 1 && Strided(rest) && i < l.high
    requires more == Prefixed(p + [i], Tuples(rest))
    ensures made + LoopRuns(p, l, rest, i) == (made + more) + LoopRuns(p, l, rest, i + l.stride)
  {
  }

  lemma PlaneTurn(p: Tuple, l: Loop, m: Loop, i: int, made: seq<Tuple>, line: seq<Tuple>)
    requires l.stride >= 1 && m.stride >= 1 && i < l.high && line == LoopRuns(p + [i], m, [], m.low)
    ensures made + LoopRuns(p, l, [m], i) == (made + line) + LoopRuns(p, l, [m], i + l.stride)
  {
    LineRuns(p + [i], m);
    RunTurn(p, l, [m], i, made, line);
  }

  lemma SpaceTurn(l: Loop, m: Loop, n: Loop, i: int, made: seq<Tuple>, plane: seq<Tuple>)
    requires l.stride >= 1 && m.stride >= 1 && n.stride >= 1 && i < l.high
    requires plane == LoopRuns([i], m, [n], m.low)
    ensures made + LoopRuns([], l, [m, n], i) == (made + plane) + LoopRuns([], l, [m, n], i + l.stride)
  {
    assert [] + [i] == [i];
    PlaneRuns([i], m, n);
    RunTurn([], l, [m, n], i, made, plane);
  }

  /** The innermost loop of a runner; alone, forasync1D_runner. */
  method RunLine(p: Tuple, l: Loop) returns (calls: seq<Tuple>)
    requires l.stride >= 1
    ensures calls == LoopRuns(p, l, [], l.low)
  {
    calls := [];
    var i := l.low;
    assert [] + LoopRuns(p, l, [], l.low) == LoopRuns(p, l, [], l.low);
    while i < l.high
      invariant calls + LoopRuns(p, l, [], i) == LoopRuns(p, l, [], l.low)
      decreases l.high - i
    {
      PointRuns(p + [i]);
      RunTurn(p, l, [], i, calls, [p + [i]]);
      calls := calls + [p + [i]];
      i := i + l.stride;
    }
    assert calls + [] == calls;
  }

  /** The two innermost loops; alone, forasync2D_runner. */
  method RunPlane(p: Tuple, l: Loop, m: Loop) returns (calls: seq<Tuple>)
    requires l.stride >= 1 && m.stride >= 1
    ensures calls == LoopRuns(p, l, [m], l.low)
  {
    calls := [];
    var i := l.low;
    assert [] + LoopRuns(p, l, [m], l.low) == LoopRuns(p, l, [m], l.low);
    while i < l.high
      invariant calls + LoopRuns(p, l, [m], i) == LoopRuns(p, l, [m], l.low)
      decreases l.high - i
    {
      var line := RunLine(p + [i], m);
      PlaneTurn(p, l, m, i, calls, line);
      calls := calls + line;
      i := i + l.stride;
    }
    assert calls + [] == calls;
  }

  /** The three loops of forasync3D_runner. */
  method RunSpace(l: Loop, m: Loop, n: Loop) returns (calls: seq<Tuple>)
    requires l.stride >= 1 && m.stride >= 1 && n.stride >= 1
    ensures calls == LoopRuns([], l, [m, n], l.low)
  {
    calls := [];
    var i := l.low;
    assert [] + LoopRuns([], l, [m, n], l.low) == LoopRuns([], l, [m, n], l.low);
    while i < l.high
      invariant calls + LoopRuns([], l, [m, n], i) == LoopRuns([], l, [m, n], l.low)
      decreases l.high - i
    {
      var plane := RunPlane([i], m, n);
      SpaceTurn(l, m, n, i, calls, plane);
      calls := calls + plane;
      i := i + l.stride;
    }
    assert calls + [] == calls;
  }

  /** The runner for the number of loops of the domain. */
  method Run(d: Domain) returns (calls: seq<Tuple>)
    requires 1 <= |d| <= 3 && Strided(d)
    ensures calls == Tuples(d)
  {
    WholeLoop([], d[0], d[1..]);
    assert [d[0]] + d[1..] == d;
    if |d| == 1 {
      assert d[1..] == [];
      calls := RunLine([], d[0]);
    } else if |d| == 2 {
      assert d[1..] == [d[1]];
      calls := RunPlane([], d[0], d[1]);
    } else {
      assert d[1..] == [d[1], d[2]];
      calls := RunSpace(d[0], d[1], d[2]);
    }
  }

  // ---------------------------------------------------------------------
  // The recursive scheme
  // ---------------------------------------------------------------------

  /** The argument of a task: a domain that the task overwrites while it splits it. */
  class Forasync {
    var loop: Domain

    constructor (loop: Domain)
      ensures this.loop == loop
    {
      this.loop := loop;
    }

    /**
      forasync1D_recursive, forasync2D_recursive and forasync3D_recursive.  `calls`
      are those made by this task and by the tasks it spawns.
     */
    method Recursive() returns (calls: seq<Tuple>, ghost leaves: seq<Domain>)
      requires 1 <= |loop| <= 3 && Strided(loop) && Tiled(loop)
      modifies this
      ensures leaves == Leaves(old(loop)) && AllStrided(leaves) && calls == AllTuples(leaves)
      decreases Extent(loop)
    {
      ghost var d := loop;
      var k := FirstLong();
      if k < |loop| {
        var mid := (loop[k].high + loop[k].low) / 2;
        if loop[k].high + loop[k].low < 0 {
          mid := -((-loop[k].high - loop[k].low) / 2);
        }
        SplitShrinks(d, k);
        var task := new Forasync(loop[k := loop[k].(low := mid)]);
        loop := loop[k := loop[k].(high := mid)];
        assert loop == Lower(d, k) && task.loop == Upper(d, k);
        var upper;
        ghost var upperLeaves;
        calls, leaves := Recursive();
        upper, upperLeaves := task.Recursive();
        AllTuplesConcat(leaves, upperLeaves);
        calls, leaves := calls + upper, leaves + upperLeaves;
      } else {
        calls := Run(loop);
        leaves := [d];
        assert Tuples(d) + AllTuples([]) == Tuples(d);
      }
    }

    /** The tests of the if-else chain: the first dimension that is longer than its tile. */
    method FirstLong() returns (k: nat)
      requires |loop| <= 3
      ensures k == SplitAt(loop)
    {
      k := 0;
      while k < |loop| && loop[k].high - loop[k].low <= loop[k].tile
        invariant k <= |loop| && forall j :: 0 <= j < k ==> !Long(loop[j])
      {
        k := k + 1;
      }
      FirstIsSplitAt(loop, k);
    }
  }

  lemma FirstIsSplitAt(d: Domain, k: nat)
    requires k <= |d| && (k < |d| ==> Long(d[k])) && forall j :: 0 <= j < k ==> !Long(d[j])
    ensures k == SplitAt(d)
  {
  }

  // ---------------------------------------------------------------------
  // The flat schemes
  // ---------------------------------------------------------------------

  lemma FullChunksTurn(l: Loop, low: int, size: int)
    requires l.tile >= 1 && low < size
    ensures FullChunks(l, low, size) ==
            [[Loop(low, low + l.tile, l.stride, l.tile)]] + FullChunks(l, low + l.tile, size)
  {
  }

  /** forasync1D_flat: the domains of the tasks it spawns. */
  method Flat1D(loop0: Loop) returns (tasks: seq<Domain>)
    requires loop0.tile >= 1
    ensures tasks == Tasks(loop0)
  {
    var nbChunks := if loop0.high >= 0 then loop0.high / loop0.tile else -((-loop0.high) / loop0.tile);
    var size := loop0.tile * nbChunks;
    var low0 := loop0.low;
    tasks := [];
    while low0 < size
      invariant tasks + FullChunks(loop0, low0, size) == FullChunks(loop0, loop0.low, size)
      invariant FirstPast(loop0, low0, size) == FirstPast(loop0, loop0.low, size)
      decreases size - low0
    {
      FullChunksTurn(loop0, low0, size);
      tasks := tasks + [[Loop(low0, low0 + loop0.tile, loop0.stride, loop0.tile)]];
      low0 := low0 + loop0.tile;
    }
    if size < loop0.high {
      tasks := tasks + [[Loop(low0, loop0.high, loop0.stride, loop0.tile)]];
    }
  }

  /** The tiles with the chunks `p` of the enclosing loops in front. */
  function Below(p: Domain, tiles: seq<Domain>): (r: seq<Domain>)
    ensures |r| == |tiles|
  {
    seq(|tiles|, k requires 0 <= k < |tiles| => p + tiles[k])
  }

  /** The tiles that a loop over chunks still makes from `low` on. */
  function LoopTiles(p: Domain, l: Loop, rest: Domain, low: int): seq<Domain>
    requires l.tile >= 1 && Tiled(rest)
    decreases l.high - low
  {
    if low >= l.high then []
    else Below(p + [Chunk(l.(low := low))], Tiles(rest)) + LoopTiles(p, l, rest, low + l.tile)
  }

  /** One turn of a loop over chunks in the tiles of its domain. */
  lemma TilesTurn(p: Domain, l: Loop, rest: Domain, low: int)
    requires l.tile >= 1 && Tiled(rest) && low < l.high
    ensures Below(p, Tiles([l.(low := low)] + rest)) ==
            Below(p + [Chunk(l.(low := low))], Tiles(rest)) + Below(p, Tiles([l.(low := low + l.tile)] + rest))
  {
    var d := [l.(low := low)] + rest;
    assert d[1..] == rest;
    assert StartAt(d, low + l.tile) == [l.(low := low + l.tile)] + rest;
    BelowUnder(p, Chunk(l.(low := low)), Tiles(rest));
    BelowConcat(p, Under(Chunk(l.(low := low)), Tiles(rest)), Tiles(StartAt(d, low + l.tile)));
  }

  lemma {:induction false} LoopTilesAreTiles(p: Domain, l: Loop, rest: Domain, low: int)
    requires l.tile >= 1 && Tiled(rest)
    ensures LoopTiles(p, l, rest, low) == Below(p, Tiles([l.(low := low)] + rest))
    decreases l.high - low
  {
    if low < l.high {
      TilesTurn(p, l, rest, low);
      LoopTilesAreTiles(p, l, rest, low + l.tile);
    }
  }

  lemma BelowUnder(p: Domain, c: Loop, ts: seq<Domain>)
    ensures Below(p, Under(c, ts)) == Below(p + [c], ts)
  {
    assert forall k :: 0 <= k < |ts| ==> p + ([c] + ts[k]) == (p + [c]) + ts[k];
  }

  lemma BelowConcat(p: Domain, a: seq<Domain>, b: seq<Domain>)
    ensures Below(p, a + b) == Below(p, a) + Below(p, b)
  {
  }

  lemma WholeTiles(p: Domain, l: Loop, rest: Domain)
    requires l.tile >= 1 && Tiled(rest)
    ensures LoopTiles(p, l, rest, l.low) == Below(p, Tiles([l] + rest))
    ensures p == [] ==> LoopTiles(p, l, rest, l.low) == Tiles([l] + rest)
  {
    LoopTilesAreTiles(p, l, rest, l.low);
    assert l.(low := l.low) == l;
    var ts := Tiles([l] + rest);
    assert forall k :: 0 <= k < |ts| ==> [] + ts[k] == ts[k];
  }

  lemma LineTiles(p: Domain, m: Loop)
    requires m.tile >= 1
    ensures LoopTiles(p, m, [], m.low) == Below(p, Tiles([m]))
  {
    WholeTiles(p, m, []);
    assert [m] + [] == [m];
  }

  lemma PlaneTiles(p: Domain, m: Loop, n: Loop)
    requires m.tile >= 1 && n.tile >= 1
    ensures LoopTiles(p, m, [n], m.low) == Below(p, Tiles([m, n]))
  {
    WholeTiles(p, m, [n]);
    assert [m] + [n] == [m, n];
  }

  lemma PointTiles(p: Domain)
    ensures Below(p, Tiles([])) == [p]
  {
    assert p + [] == p;
  }

  /** One turn of a loop over chunks. */
  lemma ChunkTurn(p: Domain, l: Loop, rest: Domain, low: int, made: seq<Domain>, more: seq<Domain>)
    requires l.tile >= 1 && Tiled(rest) && low < l.high
    requires more == Below(p + [Chunk(l.(low := low))], Tiles(rest))
    ensures made + LoopTiles(p, l, rest, low) == (made + more) + LoopTiles(p, l, rest, low + l.tile)
  {
  }

  lemma ChunkPlaneTurn(p: Domain, l: Loop, m: Loop, low: int, made: seq<Domain>, line: seq<Domain>)
    requires l.tile >= 1 && m.tile >= 1 && low < l.high
    requires line == LoopTiles(p + [Chunk(l.(low := low))], m, [], m.low)
    ensures made + LoopTiles(p, l, [m], low) == (made + line) + LoopTiles(p, l, [m], low + l.tile)
  {
    LineTiles(p + [Chunk(l.(low := low))], m);
    ChunkTurn(p, l, [m], low, made, line);
  }

  lemma ChunkSpaceTurn(l: Loop, m: Loop, n: Loop, low: int, made: seq<Domain>, plane: seq<Domain>)
    requires l.tile >= 1 && m.tile >= 1 && n.tile >= 1 && low < l.high
    requires plane == LoopTiles([Chunk(l.(low := low))], m, [n], m.low)
    ensures made + LoopTiles([], l, [m, n], low) == (made + plane) + LoopTiles([], l, [m, n], low + l.tile)
  {
    assert [] + [Chunk(l.(low := low))] == [Chunk(l.(low := low))];
    PlaneTiles([Chunk(l.(low := low))], m, n);
    ChunkTurn([], l, [m, n], low, made, plane);
  }

  /** The innermost loop over chunks. */
  method ChunkLine(p: Domain, l: Loop) returns (tasks: seq<Domain>)
    requires l.tile >= 1
    ensures tasks == LoopTiles(p, l, [], l.low)
  {
    tasks := [];
    var low := l.low;
    assert [] + LoopTiles(p, l, [], l.low) == LoopTiles(p, l, [], l.low);
    while low < l.high
      invariant tasks + LoopTiles(p, l, [], low) == LoopTiles(p, l, [], l.low)
      decreases l.high - low
    {
      var high := if low + l.tile > l.high then l.high else low + l.tile;
      var chunk := Loop(low, high, l.stride, l.tile);
      assert chunk == Chunk(l.(low := low));
      PointTiles(p + [chunk]);
      ChunkTurn(p, l, [], low, tasks, [p + [chunk]]);
      tasks := tasks + [p + [chunk]];
      low := low + l.tile;
    }
    assert tasks + [] == tasks;
  }

  /** The two innermost loops over chunks. */
  method ChunkPlane(p: Domain, l: Loop, m: Loop) returns (tasks: seq<Domain>)
    requires l.tile >= 1 && m.tile >= 1
    ensures tasks == LoopTiles(p, l, [m], l.low)
  {
    tasks := [];
    var low := l.low;
    assert [] + LoopTiles(p, l, [m], l.low) == LoopTiles(p, l, [m], l.low);
    while low < l.high
      invariant tasks + LoopTiles(p, l, [m], low) == LoopTiles(p, l, [m], l.low)
      decreases l.high - low
    {
      var high := if low + l.tile > l.high then l.high else low + l.tile;
      var chunk := Loop(low, high, l.stride, l.tile);
      assert chunk == Chunk(l.(low := low));
      var line := ChunkLine(p + [chunk], m);
      ChunkPlaneTurn(p, l, m, low, tasks, line);
      tasks := tasks + line;
      low := low + l.tile;
    }
    assert tasks + [] == tasks;
  }

  /** forasync2D_flat: the domains of the tasks it spawns. */
  method Flat2D(loop0: Loop, loop1: Loop) returns (tasks: seq<Domain>)
    requires loop0.tile >= 1 && loop1.tile >= 1
    ensures tasks == Tiles([loop0, loop1])
  {
    tasks := ChunkPlane([], loop0, loop1);
    WholeTiles([], loop0, [loop1]);
    assert [loop0] + [loop1] == [loop0, loop1];
  }

  /** The three loops over chunks. */
  method ChunkSpace(loop0: Loop, loop1: Loop, loop2: Loop) returns (tasks: seq<Domain>)
    requires loop0.tile >= 1 && loop1.tile >= 1 && loop2.tile >= 1
    ensures tasks == LoopTiles([], loop0, [loop1, loop2], loop0.low)
  {
    tasks := [];
    var low := loop0.low;
    assert [] + LoopTiles([], loop0, [loop1, loop2], loop0.low) == LoopTiles([], loop0, [loop1, loop2], loop0.low);
    while low < loop0.high
      invariant tasks + LoopTiles([], loop0, [loop1, loop2], low) == LoopTiles([], loop0, [loop1, loop2], loop0.low)
      decreases loop0.high - low
    {
      var high := if low + loop0.tile > loop0.high then loop0.high else low + loop0.tile;
      var chunk := Loop(low, high, loop0.stride, loop0.tile);
      assert chunk == Chunk(loop0.(low := low));
      var plane := ChunkPlane([chunk], loop1, loop2);
      ChunkSpaceTurn(loop0, loop1, loop2, low, tasks, plane);
      tasks := tasks + plane;
      low := low + loop0.tile;
    }
    assert tasks + [] == tasks;
  }

  /** forasync3D_flat: the domains of the tasks it spawns. */
  method Flat3D(loop0: Loop, loop1: Loop, loop2: Loop) returns (tasks: seq<Domain>)
    requires loop0.tile >= 1 && loop1.tile >= 1 && loop2.tile >= 1
    ensures tasks == Tiles([loop0, loop1, loop2])
  {
    tasks := ChunkSpace(loop0, loop1, loop2);
    WholeTiles([], loop0, [loop1, loop2]);
    assert [loop0] + [loop1, loop2] == [loop0, loop1, loop2];
  }
}
