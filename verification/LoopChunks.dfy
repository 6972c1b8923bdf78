/**
  The flat scheme of src/hclib.c and inc/hclib-forasync.h: chunks of the tile size,
  one after another in each dimension.
 */
module LoopChunks {
  import opened Arithmetic
  import opened LoopTiling

  /** The tile is a positive multiple of the stride. */
  predicate WholeStrides(l: Loop) {
    l.stride >= 1 && l.tile >= 1 && l.tile % l.stride == 0
  }

  predicate Aligned(d: Domain) {
    forall k :: 0 <= k < |d| ==> WholeStrides(d[k])
  }

  /** Either the tile is made of whole strides or one chunk is enough. */
  predicate Even(l: Loop)
    requires l.stride >= 1
  {
    l.tile % l.stride == 0 || l.high - l.low <= l.tile
  }

  predicate AllEven(d: Domain)
    requires Strided(d)
  {
    forall k :: 0 <= k < |d| ==> Even(d[k])
  }

  // ---------------------------------------------------------------------
  // Two and three dimensions
  // ---------------------------------------------------------------------

  /** The first chunk: as long as the tile, but not past the end. */
  function Chunk(l: Loop): Loop {
    l.(high := if l.low + l.tile > l.high then l.high else l.low + l.tile)
  }

  /** The tiles below one chunk of the outermost loop. */
  function Under(l: Loop, tiles: seq<Domain>): (r: seq<Domain>)
    ensures |r| == |tiles| && forall k :: 0 <= k < |r| ==> r[k] == [l] + tiles[k]
  {
    seq(|tiles|, k requires 0 <= k < |tiles| => [l] + tiles[k])
  }

  /** The tiles of the flat scheme, in the order in which nested loops over the chunks make them. */
  function Tiles(d: Domain): (tiles: seq<Domain>)
    requires Tiled(d)
    decreases |d|, Distance(d)
  {
    if d == [] then [[]]
    else if d[0].low >= d[0].high then []
    else Under(Chunk(d[0]), Tiles(d[1..])) + Tiles(StartAt(d, d[0].low + d[0].tile))
  }

  lemma {:induction false} TilesStrided(d: Domain)
    requires Tiled(d) && Strided(d)
    ensures AllStrided(Tiles(d))
    decreases |d|, Distance(d)
  {
    if d != [] && d[0].low < d[0].high {
      TilesStrided(d[1..]);
      TilesStrided(StartAt(d, d[0].low + d[0].tile));
    }
  }

  lemma {:induction false} UnderCovers(l: Loop, tiles: seq<Domain>, t: Tuple)
    requires l.stride >= 1 && AllStrided(tiles)
    ensures AllStrided(Under(l, tiles))
    ensures Covers(Under(l, tiles), t) == if t != [] && InLoop(l, t[0]) then Covers(tiles, t[1..]) else 0
    decreases |tiles|
  {
    if tiles != [] {
      var x := [l] + tiles[0];
      assert x[1..] == tiles[0];
      UnderCovers(l, tiles[1..], t);
      assert Under(l, tiles)[0] == x;
      assert Under(l, tiles)[1..] == Under(l, tiles[1..]);
    }
  }

  /** A chunk of whole strides, or a chunk that is the whole loop, divides the loop. */
  lemma ChunkDivides(l: Loop, i: int)
    requires l.stride >= 1 && l.tile >= 1 && Even(l)
    ensures InLoop(l, i) <==> InLoop(Chunk(l), i) || InLoop(l.(low := l.low + l.tile), i)
    ensures !(InLoop(Chunk(l), i) && InLoop(l.(low := l.low + l.tile), i))
  {
    if l.tile % l.stride == 0 {
      var c := l.tile / l.stride;
      assert l.tile == l.stride * c;
      RemainderOfShift(i - l.low, c, l.stride);
    }
  }

  lemma {:induction false} TilesCover(d: Domain, t: Tuple)
    requires Tiled(d) && Strided(d) && AllEven(d)
    ensures AllStrided(Tiles(d))
    ensures Covers(Tiles(d), t) == if In(d, t) then 1 else 0
    decreases |d|, Distance(d)
  {
    TilesStrided(d);
    if d != [] && d[0].low < d[0].high {
      var rest, next := d[1..], StartAt(d, d[0].low + d[0].tile);
      TilesCover(next, t);
      TilesStrided(rest);
      UnderCovers(Chunk(d[0]), Tiles(rest), t);
      CoversConcat(Under(Chunk(d[0]), Tiles(rest)), Tiles(next), t);
      if t != [] {
        TilesCover(rest, t[1..]);
        ChunkDivides(d[0], t[0]);
        assert next[1..] == rest;
      }
    }
  }

  lemma {:induction false} EmptyTiles(d: Domain, t: Tuple)
    requires Tiled(d) && Strided(d) && SomeEmpty(d)
    ensures AllStrided(Tiles(d)) && Covers(Tiles(d), t) == 0
    decreases |d|, Distance(d)
  {
    TilesStrided(d);
    if d[0].low < d[0].high {
      var k :| 0 <= k < |d| && d[k].low >= d[k].high;
      var rest, next := d[1..], StartAt(d, d[0].low + d[0].tile);
      assert rest[k - 1] == d[k] && next[k] == d[k];
      EmptyTiles(next, t);
      TilesStrided(rest);
      UnderCovers(Chunk(d[0]), Tiles(rest), t);
      CoversConcat(Under(Chunk(d[0]), Tiles(rest)), Tiles(next), t);
      if t != [] {
        EmptyTiles(rest, t[1..]);
      }
    }
  }

  /** Each index of `t` starts the first or the second chunk of its loop. */
  predicate StartsChunks(d: Domain, t: Tuple) {
    if d == [] then t == []
    else t != [] && (t[0] == d[0].low || t[0] == d[0].low + d[0].tile) && t[0] < d[0].high && StartsChunks(d[1..], t[1..])
  }

  lemma {:induction false} ChunkStartsAreRun(d: Domain, t: Tuple)
    requires Tiled(d) && Strided(d) && StartsChunks(d, t)
    ensures AllStrided(Tiles(d)) && Covers(Tiles(d), t) >= 1
    decreases |d|, Distance(d)
  {
    TilesStrided(d);
    if d != [] {
      var rest, next := d[1..], StartAt(d, d[0].low + d[0].tile);
      TilesStrided(rest);
      TilesStrided(next);
      UnderCovers(Chunk(d[0]), Tiles(rest), t);
      CoversConcat(Under(Chunk(d[0]), Tiles(rest)), Tiles(next), t);
      if t[0] == d[0].low {
        ChunkStartsAreRun(rest, t[1..]);
      } else {
        assert next[1..] == rest;
        ChunkStartsAreRun(next, t);
      }
    }
  }

  /** Where a tile is not made of whole strides, the second chunk starts at an index that the loop skips. */
  lemma {:induction false} UnevenStrays(d: Domain) returns (t: Tuple)
    requires Tiled(d) && Strided(d) && !SomeEmpty(d) && !AllEven(d)
    ensures StartsChunks(d, t) && OffGrid(d, t)
  {
    var l := d[0];
    NotEmptyBelow(d);
    if !Even(l) {
      t := [l.low + l.tile] + Corner(d[1..]);
      CornerStartsChunks(d[1..]);
      assert t[1..] == Corner(d[1..]);
      assert t[0] - l.low == l.tile;
    } else {
      var k :| 0 <= k < |d| && !Even(d[k]);
      assert d[1..][k - 1] == d[k];
      var u := UnevenStrays(d[1..]);
      t := [l.low] + u;
      assert t[1..] == u;
    }
  }

  lemma NotEmptyBelow(d: Domain)
    requires d != [] && !SomeEmpty(d)
    ensures !SomeEmpty(d[1..])
  {
    forall k | 0 <= k < |d[1..]|
      ensures d[1..][k].low < d[1..][k].high
    {
      assert d[1..][k] == d[k + 1];
    }
  }

  lemma {:induction false} CornerStartsChunks(d: Domain)
    requires !SomeEmpty(d)
    ensures StartsChunks(d, Corner(d))
  {
    if d != [] {
      NotEmptyBelow(d);
      CornerStartsChunks(d[1..]);
      assert Corner(d)[1..] == Corner(d[1..]);
    }
  }

  /**
    The flat scheme runs the sequential strided iterations, once each, exactly when
    every loop has a tile made of whole strides or no more than one chunk, or there
    is nothing to run.
   */
  lemma FlatIsExactIff(d: Domain)
    requires Tiled(d) && Strided(d)
    ensures AllStrided(Tiles(d))
    ensures Exact(Tiles(d), d) <==> AllEven(d) || SomeEmpty(d)
  {
    TilesStrided(d);
    if SomeEmpty(d) {
      forall t
        ensures Covers(Tiles(d), t) == if In(d, t) then 1 else 0
      {
        EmptyTiles(d, t);
        EmptyRunsNothing(d, t);
      }
    } else if AllEven(d) {
      forall t
        ensures Covers(Tiles(d), t) == if In(d, t) then 1 else 0
      {
        TilesCover(d, t);
      }
    } else {
      var t := UnevenStrays(d);
      ChunkStartsAreRun(d, t);
      OffGridIsOut(d, t);
      assert !Exact(Tiles(d), d);
    }
  }

  /** Tiles made of whole strides run what the sequential loops run. */
  lemma FlatRunsTheSame(d: Domain)
    requires Aligned(d)
    ensures Tiled(d) && AllStrided(Tiles(d)) && Exact(Tiles(d), d)
    ensures multiset(AllTuples(Tiles(d))) == multiset(Tuples(d))
  {
    FlatIsExactIff(d);
    ExactRunsTheSame(Tiles(d), d);
  }

  /** In two dimensions, from 0 to 6 by 2 in tiles of 3, the second chunk starts between two indices. */
  lemma FlatCanStray()
    ensures var d := [Loop(0, 6, 2, 3), Loop(0, 2, 1, 1)];
            AllStrided(Tiles(d)) && !Exact(Tiles(d), d)
  {
    var d := [Loop(0, 6, 2, 3), Loop(0, 2, 1, 1)];
    assert !Even(d[0]);
    FlatIsExactIff(d);
  }

  // ---------------------------------------------------------------------
  // One dimension
  // ---------------------------------------------------------------------

  /** Division in C. */
  function Quotient(x: int, y: int): int
    requires y >= 1
  {
    if x >= 0 then x / y else -((-x) / y)
  }

  /** The tile size times the number of whole tiles below `high`, counted from zero and not from `low`. */
  function Size(l: Loop): int
    requires l.tile >= 1
  {
    l.tile * Quotient(l.high, l.tile)
  }

  /** Full chunks from `low` on for as long as they start below `size`. */
  function FullChunks(l: Loop, low: int, size: int): seq<Domain>
    requires l.tile >= 1
    decreases size - low
  {
    if low >= size then []
    else [[Loop(low, low + l.tile, l.stride, l.tile)]] + FullChunks(l, low + l.tile, size)
  }

  /** Where the first chunk at or past `size` starts. */
  function FirstPast(l: Loop, low: int, size: int): (s: int)
    requires l.tile >= 1
    ensures s >= low && s >= size && (low < size ==> low + l.tile <= s < size + l.tile) && (low >= size ==> s == low)
    decreases size - low
  {
    if low >= size then low else FirstPast(l, low + l.tile, size)
  }

  function LeftoverStart(l: Loop): int
    requires l.tile >= 1
  {
    FirstPast(l, l.low, Size(l))
  }

  /** The tasks of the one-dimensional flat scheme: full chunks and, below `high`, the leftover. */
  function Tasks(l: Loop): seq<Domain>
    requires l.tile >= 1
  {
    FullChunks(l, l.low, Size(l)) + if Size(l) < l.high then [[l.(low := LeftoverStart(l))]] else []
  }

  lemma OneTask(l: Loop, tasks: seq<Domain>, i: int)
    requires l.stride >= 1 && AllStrided(tasks)
    ensures AllStrided([[l]] + tasks)
    ensures Covers([[l]] + tasks, [i]) == (if InLoop(l, i) then 1 else 0) + Covers(tasks, [i])
  {
    assert ([[l]] + tasks)[1..] == tasks;
    SingleLoop(l, [i]);
  }

  lemma SingleLoop(l: Loop, t: Tuple)
    requires l.stride >= 1
    ensures In([l], t) <==> |t| == 1 && InLoop(l, t[0])
  {
    assert [l][1..] == [];
    assert t != [] ==> (In([], t[1..]) <==> t[1..] == []);
  }

  lemma {:induction false} FirstPastIsOnGrid(l: Loop, low: int, size: int)
    requires WholeStrides(l)
    ensures (FirstPast(l, low, size) - low) % l.stride == 0
    decreases size - low
  {
    if low < size {
      FirstPastIsOnGrid(l, low + l.tile, size);
      var c := l.tile / l.stride;
      assert l.tile == l.stride * c;
      RemainderOfShift(FirstPast(l, low, size) - low, c, l.stride);
    }
  }

  /** The full chunks run what one loop up to the start of the leftover would run. */
  lemma {:induction false} FullChunksCover(l: Loop, low: int, size: int, i: int)
    requires WholeStrides(l)
    ensures AllStrided(FullChunks(l, low, size))
    ensures Covers(FullChunks(l, low, size), [i]) ==
            if InLoop(Loop(low, FirstPast(l, low, size), l.stride, l.tile), i) then 1 else 0
    decreases size - low
  {
    if low < size {
      FullChunksCover(l, low + l.tile, size, i);
      var whole := Loop(low, FirstPast(l, low, size), l.stride, l.tile);
      ChunkDivides(whole, i);
      OneTask(Chunk(whole), FullChunks(l, low + l.tile, size), i);
    }
  }

  lemma TasksCover(l: Loop, i: int)
    requires WholeStrides(l)
    ensures AllStrided(Tasks(l))
    ensures Covers(Tasks(l), [i]) ==
            (if InLoop(l.(high := LeftoverStart(l)), i) then 1 else 0)
            + (if Size(l) < l.high && InLoop(l.(low := LeftoverStart(l)), i) then 1 else 0)
  {
    TasksSum(l, i);
    FullChunksCover(l, l.low, Size(l), i);
  }

  /** What a caller can check: the leftover starts less than a stride past the end. */
  predicate StartsInTime(l: Loop)
    requires l.tile >= 1
  {
    LeftoverStart(l) < (if l.low > l.high then l.low else l.high) + l.stride
  }

  /** Two different indices on the grid are at least a stride apart. */
  lemma GridGap(a: int, b: int, stride: int)
    requires stride >= 1 && a % stride == 0 && b % stride == 0 && a < b
    ensures a + stride <= b && (b - stride) % stride == 0
  {
    var c := a / stride;
    assert a == stride * c;
    RemainderOfShift(b, c, stride);
    if b - a < stride {
      Remainder(b - a, 0, b - a, stride);
    }
    RemainderOfShift(b, 1, stride);
  }

  lemma {:induction false} SinglesOnly(tasks: seq<Domain>, t: Tuple)
    requires AllStrided(tasks) && |t| != 1 && forall k :: 0 <= k < |tasks| ==> |tasks[k]| == 1
    ensures Covers(tasks, t) == 0
    decreases |tasks|
  {
    if tasks != [] {
      assert tasks[0] == [tasks[0][0]];
      SingleLoop(tasks[0][0], t);
      SinglesOnly(tasks[1..], t);
    }
  }

  lemma {:induction false} FullChunksAreSingle(l: Loop, low: int, size: int)
    requires l.tile >= 1
    ensures forall k :: 0 <= k < |FullChunks(l, low, size)| ==> |FullChunks(l, low, size)[k]| == 1
    decreases size - low
  {
    if low < size {
      FullChunksAreSingle(l, low + l.tile, size);
    }
  }

  lemma TasksInTime(l: Loop, i: int)
    requires WholeStrides(l) && StartsInTime(l)
    ensures AllStrided(Tasks(l)) && Covers(Tasks(l), [i]) == if InLoop(l, i) then 1 else 0
  {
    var s := LeftoverStart(l);
    TasksCover(l, i);
    FirstPastIsOnGrid(l, l.low, Size(l));
    if s <= l.high {
      LoopDivides(l, s, i);
    } else if InLoop(l.(high := s), i) {
      GridGap(i - l.low, s - l.low, l.stride);
    }
  }

  /** The index that a late leftover leaves to a full chunk although it lies past the end. */
  lemma TasksLate(l: Loop)
    requires WholeStrides(l) && !StartsInTime(l)
    ensures var i := LeftoverStart(l) - l.stride;
            AllStrided(Tasks(l)) && Covers(Tasks(l), [i]) == 1 && !InLoop(l, i)
  {
    var s := LeftoverStart(l);
    var i := s - l.stride;
    TasksCover(l, i);
    FirstPastIsOnGrid(l, l.low, Size(l));
    RemainderOfShift(s - l.low, 1, l.stride);
    assert i - l.low == s - l.low - l.stride * 1;
  }

  /** The last index that a full chunk from `low` on runs. */
  function LastInChunk(l: Loop): int
    requires l.stride >= 1 && l.tile >= 1
  {
    l.low + MultipleBelow(l.tile, l.stride)
  }

  /** No full chunk, or one that reaches the end of the loop without running past it. */
  predicate OneChunk(l: Loop)
    requires l.stride >= 1 && l.tile >= 1
  {
    || l.low >= Size(l)
    || (Size(l) <= l.low + l.tile && l.high <= l.low + l.tile && LastInChunk(l) < l.high)
  }

  lemma LastInChunkIsLast(l: Loop, i: int)
    requires l.stride >= 1 && l.tile >= 1
    ensures InLoop(l.(high := l.low + l.tile), LastInChunk(l))
    ensures InLoop(l.(high := l.low + l.tile), i) ==> i <= LastInChunk(l)
  {
    MultipleBelowIsBelow(l.tile, l.stride);
    if InLoop(l.(high := l.low + l.tile), i) {
      MultipleBelowIsLargest(l.tile, l.stride, i - l.low);
    }
  }

  lemma TasksStrided(l: Loop)
    requires l.stride >= 1 && l.tile >= 1
    ensures AllStrided(Tasks(l)) && AllStrided(FullChunks(l, l.low, Size(l)))
  {
    ChunksStrided(l, l.low, Size(l));
  }

  lemma {:induction false} ChunksStrided(l: Loop, low: int, size: int)
    requires l.stride >= 1 && l.tile >= 1
    ensures AllStrided(FullChunks(l, low, size))
    decreases size - low
  {
    if low < size {
      ChunksStrided(l, low + l.tile, size);
    }
  }

  /** The leftover task, if any, comes on top of the full chunks. */
  lemma TasksSum(l: Loop, i: int)
    requires l.stride >= 1 && l.tile >= 1
    ensures AllStrided(Tasks(l)) && AllStrided(FullChunks(l, l.low, Size(l)))
    ensures Covers(Tasks(l), [i]) ==
            Covers(FullChunks(l, l.low, Size(l)), [i])
            + (if Size(l) < l.high && InLoop(l.(low := LeftoverStart(l)), i) then 1 else 0)
  {
    TasksStrided(l);
    var rest := l.(low := LeftoverStart(l));
    if Size(l) < l.high {
      OneTask(rest, [], i);
      assert [[rest]] + [] == [[rest]];
      CoversConcat(FullChunks(l, l.low, Size(l)), [[rest]], [i]);
    } else {
      assert Tasks(l) == FullChunks(l, l.low, Size(l));
    }
  }

  /** The first full chunk counts towards what the full chunks run. */
  lemma FirstChunk(l: Loop, size: int, i: int)
    requires l.stride >= 1 && l.tile >= 1 && l.low < size
    ensures AllStrided(FullChunks(l, l.low, size)) && AllStrided(FullChunks(l, l.low + l.tile, size))
    ensures Covers(FullChunks(l, l.low, size), [i]) ==
            (if InLoop(l.(high := l.low + l.tile), i) then 1 else 0) + Covers(FullChunks(l, l.low + l.tile, size), [i])
  {
    ChunksStrided(l, l.low, size);
    ChunksStrided(l, l.low + l.tile, size);
    OneTask(l.(high := l.low + l.tile), FullChunks(l, l.low + l.tile, size), i);
    assert FullChunks(l, l.low, size) == [[l.(high := l.low + l.tile)]] + FullChunks(l, l.low + l.tile, size);
  }

  lemma OneChunkIsEnough(l: Loop, i: int)
    requires l.stride >= 1 && l.tile >= 1 && OneChunk(l)
    ensures AllStrided(Tasks(l)) && Covers(Tasks(l), [i]) == if InLoop(l, i) then 1 else 0
  {
    TasksSum(l, i);
    if l.low < Size(l) {
      FirstChunk(l, Size(l), i);
      LastInChunkIsLast(l, i);
      assert FullChunks(l, l.low + l.tile, Size(l)) == [];
    } else {
      assert FullChunks(l, l.low, Size(l)) == [];
      assert l.(low := LeftoverStart(l)) == l;
    }
  }

  /** With tiles not made of whole strides a second chunk, a leftover or the end of the chunk is off. */
  lemma MoreChunksStray(l: Loop) returns (i: int)
    requires l.stride >= 1 && l.tile >= 1 && l.tile % l.stride != 0 && !OneChunk(l)
    ensures AllStrided(Tasks(l)) && Covers(Tasks(l), [i]) >= 1 && !InLoop(l, i)
  {
    var next := l.low + l.tile;
    i := if Size(l) > next || l.high > next then next else LastInChunk(l);
    TasksSum(l, i);
    FirstChunk(l, Size(l), i);
    LastInChunkIsLast(l, i);
    if Size(l) > next {
      ChunksStrided(l, next + l.tile, Size(l));
      OneTask(Loop(next, next + l.tile, l.stride, l.tile), FullChunks(l, next + l.tile, Size(l)), i);
      Remainder(0, 0, 0, l.stride);
    } else if l.high > next {
      assert LeftoverStart(l) == next;
      Remainder(0, 0, 0, l.stride);
    }
  }

  /**
    The one-dimensional flat scheme runs the sequential strided iterations, once
    each, exactly when its leftover starts less than a stride past the end or, if the
    tile is not made of whole strides, when one chunk is all there is.
   */
  lemma FlatLoopIsExactIff(l: Loop)
    requires l.stride >= 1 && l.tile >= 1
    ensures AllStrided(Tasks(l))
    ensures Exact(Tasks(l), [l]) <==> if l.tile % l.stride == 0 then StartsInTime(l) else OneChunk(l)
  {
    TasksStrided(l);
    if l.tile % l.stride == 0 && !StartsInTime(l) {
      TasksLate(l);
      SingleLoop(l, [LeftoverStart(l) - l.stride]);
      assert !Exact(Tasks(l), [l]);
    } else if l.tile % l.stride != 0 && !OneChunk(l) {
      var i := MoreChunksStray(l);
      SingleLoop(l, [i]);
      assert !Exact(Tasks(l), [l]);
    } else {
      forall t
        ensures Covers(Tasks(l), t) == if In([l], t) then 1 else 0
      {
        OneIndexEach(l, t);
      }
    }
  }

  lemma OneIndexEach(l: Loop, t: Tuple)
    requires l.stride >= 1 && l.tile >= 1 && if l.tile % l.stride == 0 then StartsInTime(l) else OneChunk(l)
    ensures AllStrided(Tasks(l)) && Covers(Tasks(l), t) == if In([l], t) then 1 else 0
  {
    TasksStrided(l);
    SingleLoop(l, t);
    if |t| != 1 {
      FullChunksAreSingle(l, l.low, Size(l));
      SinglesOnly(Tasks(l), t);
    } else {
      assert t == [t[0]];
      if l.tile % l.stride == 0 {
        TasksInTime(l, t[0]);
      } else {
        OneChunkIsEnough(l, t[0]);
      }
    }
  }

  /** With stride one and a range from zero up: exact if and only if the leftover starts at `high` at most. */
  lemma UnitFlatLoopIsExactIff(l: Loop)
    requires l.stride == 1 && l.tile >= 1 && 0 <= l.low <= l.high
    ensures AllStrided(Tasks(l))
    ensures Exact(Tasks(l), [l]) <==> LeftoverStart(l) <= l.high
  {
    assert l.tile % 1 == 0;
    FlatLoopIsExactIff(l);
  }

  lemma {:induction false} StartOnTile(l: Loop, low: int, n: int, m: int)
    requires l.tile >= 1 && low == l.tile * n && n <= m
    ensures FirstPast(l, low, l.tile * m) == l.tile * m
    decreases m - n
  {
    if n < m {
      MultipleGrows(l.tile, n, m);
      assert low + l.tile == l.tile * (n + 1);
      StartOnTile(l, low + l.tile, n + 1, m);
    }
  }

  /** In particular a loop that starts on a multiple of its tile size is exact. */
  lemma AlignedStartIsExact(l: Loop)
    requires WholeStrides(l) && 0 <= l.low <= l.high && l.low % l.tile == 0
    ensures AllStrided(Tasks(l)) && Exact(Tasks(l), [l])
    ensures multiset(AllTuples(Tasks(l))) == multiset(Tuples([l]))
  {
    var n, m := l.low / l.tile, l.high / l.tile;
    assert l.low == l.tile * n;
    assert l.high == l.tile * m + l.high % l.tile;
    if m < n {
      MultipleGrows(l.tile, m, n);
      assert false;
    }
    StartOnTile(l, l.low, n, m);
    FlatLoopIsExactIff(l);
    ExactRunsTheSame(Tasks(l), [l]);
  }

  /** From 1 to 4 in tiles of 2 the second chunk runs index 4. */
  lemma FlatLoopCanOverrun()
    ensures var l := Loop(1, 4, 1, 2);
            AllStrided(Tasks(l)) && Covers(Tasks(l), [4]) == 1 && !InLoop(l, 4)
  {
    var l := Loop(1, 4, 1, 2);
    assert Size(l) == 4;
    assert FirstPast(l, 5, 4) == 5 && FirstPast(l, 3, 4) == 5 && FirstPast(l, 1, 4) == 5;
    TasksLate(l);
  }
}
