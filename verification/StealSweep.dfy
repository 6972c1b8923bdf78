/**
  The victim sweep of src/hclib-locality-graph.c: the order in which a worker that
  has run out of tasks tries the deques along its steal path.
 */
module StealSweep {
  import opened Arithmetic

  /** A position on the steal path and a worker: one deque. */
  type Probe = (nat, nat)

  /** All positions 0..m in turn, starting from `first` and wrapping round. */
  function Round(first: nat, m: nat): (r: seq<nat>)
    ensures |r| == m && forall k :: 0 <= k < m ==> r[k] == (first + k) % m < m
  {
    seq(m, k requires 0 <= k < m => (first + k) % m)
  }

  /** The probes at one position of the path. */
  function Row(p: nat, workers: seq<nat>): (r: seq<Probe>)
    ensures |r| == |workers|
  {
    seq(|workers|, k requires 0 <= k < |workers| => (p, workers[k]))
  }

  /** The probes of a whole sweep. */
  function Sweep(positions: seq<nat>, workers: seq<nat>): (r: seq<Probe>) {
    if positions == [] then []
    else Sweep(positions[..|positions| - 1], workers) + Row(positions[|positions| - 1], workers)
  }

  // ---------------------------------------------------------------------
  // Every deque once
  // ---------------------------------------------------------------------

  lemma SmallRemainder(x: nat, m: nat)
    requires x < 2 * m
    ensures x % m == if x < m then x else x - m
  {
    if x >= m {
      assert x == m + (x - m);
    }
  }

  /** Adding to a remainder. */
  lemma RemainderOfSum(a: nat, k: nat, m: nat)
    requires 0 < m && k < m
    ensures (a + k) % m == if a % m + k < m then a % m + k else a % m + k - m
  {
    var q, s := a / m, a % m;
    assert a == m * q + s;
    if s + k < m {
      Remainder(a + k, q, s + k, m);
    } else {
      assert m * (q + 1) == m * q + m;
      Remainder(a + k, q + 1, s + k - m, m);
    }
  }

  lemma {:induction false} CountOfDistinct(s: seq<nat>, v: nat)
    requires forall i, j :: 0 <= i < j < |s| ==> s[i] != s[j]
    ensures multiset(s)[v] == if v in s then 1 else 0
    decreases |s|
  {
    if s != [] {
      var front, x := s[..|s| - 1], s[|s| - 1];
      CountOfDistinct(front, v);
      assert s == front + [x];
      assert x !in front;
    }
  }

  /** A round visits every number below `m` exactly once, wherever it starts. */
  lemma RoundVisitsOnce(first: nat, m: nat, v: nat)
    requires v < m
    ensures multiset(Round(first, m))[v] == 1
  {
    var r := Round(first, m);
    forall i, j | 0 <= i < j < m
      ensures r[i] != r[j]
    {
      RemainderOfSum(first, i, m);
      RemainderOfSum(first, j, m);
    }
    var s := first % m;
    var k := if v >= s then v - s else v - s + m;
    RemainderOfSum(first, k, m);
    assert r[k] == v;
    CountOfDistinct(r, v);
  }

  lemma {:induction false} RowCount(p: nat, workers: seq<nat>, q: nat, w: nat)
    ensures multiset(Row(p, workers))[(q, w)] == if p == q then multiset(workers)[w] else 0
    decreases |workers|
  {
    if workers != [] {
      var front, x := workers[..|workers| - 1], workers[|workers| - 1];
      RowCount(p, front, q, w);
      assert workers == front + [x];
      assert Row(p, workers) == Row(p, front) + [(p, x)];
    } else {
      assert Row(p, workers) == [];
    }
  }

  lemma {:induction false} SweepCount(positions: seq<nat>, workers: seq<nat>, p: nat, w: nat)
    requires multiset(workers)[w] == 1
    ensures multiset(Sweep(positions, workers))[(p, w)] == multiset(positions)[p]
    decreases |positions|
  {
    if positions != [] {
      var front, x := positions[..|positions| - 1], positions[|positions| - 1];
      SweepCount(front, workers, p, w);
      RowCount(x, workers, p, w);
      assert positions == front + [x];
    }
  }

  lemma {:induction false} SweepStays(positions: seq<nat>, workers: seq<nat>, x: Probe)
    requires x in Sweep(positions, workers)
    ensures x.0 in positions && x.1 in workers
    decreases |positions|
  {
    var front := positions[..|positions| - 1];
    if x in Sweep(front, workers) {
      SweepStays(front, workers, x);
    }
  }

  /** A full sweep tries each deque of each position exactly once, and no others. */
  lemma SweepTriesEachOnce(last: nat, length: nat, base: nat, workers: nat, p: nat, w: nat)
    ensures multiset(Sweep(Round(last, length), Round(base, workers)))[(p, w)] ==
            if p < length && w < workers then 1 else 0
  {
    var probes := Sweep(Round(last, length), Round(base, workers));
    if p >= length || w >= workers {
      if (p, w) in probes {
        SweepStays(Round(last, length), Round(base, workers), (p, w));
      }
      return;
    }
    RoundVisitsOnce(last, length, p);
    RoundVisitsOnce(base, workers, w);
    SweepCount(Round(last, length), Round(base, workers), p, w);
  }

  // ---------------------------------------------------------------------
  // In which order
  // ---------------------------------------------------------------------

  lemma {:induction false} SweepLength(positions: seq<nat>, workers: seq<nat>)
    ensures |Sweep(positions, workers)| == |positions| * |workers|
    decreases |positions|
  {
    if positions != [] {
      SweepLength(positions[..|positions| - 1], workers);
      var n := |positions| - 1;
      assert (n + 1) * |workers| == n * |workers| + |workers|;
    }
  }

  /** The probes of a sweep one by one: position after position, and the workers in order at each. */
  lemma {:induction false} SweepAt(positions: seq<nat>, workers: seq<nat>, i: nat, j: nat)
    requires i < |positions| && j < |workers|
    ensures i * |workers| + j < |Sweep(positions, workers)|
    ensures Sweep(positions, workers)[i * |workers| + j] == (positions[i], workers[j])
    decreases |positions|
  {
    var n := |positions| - 1;
    var front := positions[..n];
    SweepLength(front, workers);
    if i < n {
      SweepAt(front, workers, i, j);
    } else {
      assert i * |workers| == |Sweep(front, workers)|;
      assert Row(positions[n], workers)[j] == (positions[n], workers[j]);
    }
  }

  /**
    A sweep begins at the saved position and wraps round the path; at each position it
    tries the workers of the socket first, from `base` up to `limit`, and then the
    others from `limit` on, wrapping round.
   */
  lemma SweepOrder(last: nat, length: nat, base: nat, limit: nat, workers: nat, i: nat, j: nat)
    requires base <= limit <= workers && i < length && j < workers
    ensures var probes := Sweep(Round(last, length), Round(base, workers));
            && |probes| == length * workers && i * workers + j < |probes|
            && probes[i * workers + j].0 == (last + i) % length
            && probes[i * workers + j].1 ==
               if j < limit - base then base + j else (limit + (j - (limit - base))) % workers
  {
    SweepLength(Round(last, length), Round(base, workers));
    SweepAt(Round(last, length), Round(base, workers), i, j);
    if j < limit - base {
      SmallRemainder(base + j, workers);
    }
  }

  // ---------------------------------------------------------------------
  // The sweep
  // ---------------------------------------------------------------------

  /** The outcome of one sweep, as far as it got: nothing was found at the probes before the last. */
  ghost predicate Fruitless(got: Probe -> nat, tried: seq<Probe>) {
    forall k :: 0 <= k < |tried| ==> got(tried[k]) == 0
  }

  /** A sweep without success has seen every deque empty. */
  lemma NothingAnywhere(got: Probe -> nat, last: nat, length: nat, base: nat, workers: nat)
    requires Fruitless(got, Sweep(Round(last, length), Round(base, workers)))
    ensures forall p: nat, w: nat :: p < length && w < workers ==> got((p, w)) == 0
  {
    var probes := Sweep(Round(last, length), Round(base, workers));
    forall p: nat, w: nat | p < length && w < workers
      ensures got((p, w)) == 0
    {
      SweepTriesEachOnce(last, length, base, workers, p, w);
      assert (p, w) in multiset(probes);
      assert (p, w) in probes;
    }
  }

  class Worker {
    const workers: nat
    const base: nat
    const limit: nat
    const pathLength: nat
    var lastSuccessful: nat

    /** The worker's socket is a range of the workers. */
    ghost predicate Valid() {
      base <= limit <= workers
    }

    constructor (workers: nat, base: nat, limit: nat, pathLength: nat)
      requires base <= limit <= workers
      ensures Valid() && lastSuccessful == 0
      ensures this.workers == workers && this.base == base && this.limit == limit && this.pathLength == pathLength
    {
      this.workers, this.base, this.limit, this.pathLength := workers, base, limit, pathLength;
      lastSuccessful := 0;
    }

    /**
      The two inner loops at one position: first the workers of the same socket, then
      the others.  `got` is what each deque yields when it is tried.
     */
    method ProbeAt(p: nat, got: Probe -> nat, ghost before: seq<Probe>)
      returns (stolen: nat, victim: nat, ghost tried: seq<Probe>)
      requires Valid() && Fruitless(got, before)
      ensures stolen == 0 ==> tried == before + Row(p, Round(base, workers)) && Fruitless(got, tried)
      ensures stolen != 0 ==> Succeeds(before + Row(p, Round(base, workers)), got, tried, stolen, (p, victim))
      ensures stolen != 0 ==> victim < workers && got((p, victim)) == stolen
    {
      ghost var whole := before + Row(p, Round(base, workers));
      ghost var n := |before|;
      tried := before;
      var j := base;
      while j < limit
        invariant base <= j <= limit
        invariant tried == whole[..n + j - base] && Fruitless(got, tried)
      {
        victim := j;
        RemainderOf(base, j - base);
        assert whole[n + j - base] == (p, victim);
        stolen := got((p, victim));
        tried := tried + [(p, victim)];
        if stolen != 0 {
          return;
        }
        j := j + 1;
      }
      var leftover := workers - (limit - base);
      j := 0;
      while j < leftover
        invariant 0 <= j <= leftover
        invariant tried == whole[..n + limit - base + j] && Fruitless(got, tried)
      {
        victim := (limit + j) % workers;
        assert whole[n + limit - base + j] == (p, victim);
        stolen := got((p, victim));
        tried := tried + [(p, victim)];
        if stolen != 0 {
          return;
        }
        j := j + 1;
      }
      stolen, victim := 0, 0;
      assert tried == whole;
    }

    lemma RemainderOf(b: nat, k: nat)
      requires b + k < workers
      ensures (b + k) % workers == b + k
    {
      SmallRemainder(b + k, workers);
    }

    /**
      locale_steal_task.  A call that finds nothing has tried every deque exactly as
      in a full sweep; one that succeeds stops at the first deque of that sweep that
      yields tasks, and remembers its position.
     */
    method Steal(got: Probe -> nat) returns (stolen: nat, victim: nat, ghost tried: seq<Probe>)
      requires Valid()
      modifies this`lastSuccessful
      ensures stolen == 0 ==>
                && tried == Sweep(Round(old(lastSuccessful), pathLength), Round(base, workers))
                && Fruitless(got, tried) && lastSuccessful == old(lastSuccessful)
      ensures stolen == 0 <==> forall p: nat, w: nat :: p < pathLength && w < workers ==> got((p, w)) == 0
      ensures stolen != 0 ==>
                && lastSuccessful < pathLength && victim < workers
                && Succeeds(Sweep(Round(old(lastSuccessful), pathLength), Round(base, workers)),
                            got, tried, stolen, (lastSuccessful, victim))
    {
      ghost var positions := Round(lastSuccessful, pathLength);
      ghost var victims := Round(base, workers);
      tried := [];
      var i := 0;
      var last := lastSuccessful;
      while i < pathLength
        invariant 0 <= i <= pathLength && lastSuccessful == last
        invariant tried == Sweep(positions[..i], victims) && Fruitless(got, tried)
      {
        var index := (last + i) % pathLength;
        assert positions[..i + 1][..i] == positions[..i] && positions[i] == index;
        stolen, victim, tried := ProbeAt(index, got, tried);
        if stolen != 0 {
          lastSuccessful := index;
          SweepBegins(positions, victims, i + 1);
          assert got((index, victim)) != 0;
          return;
        }
        i := i + 1;
      }
      assert positions[..i] == positions;
      stolen, victim := 0, 0;
      NothingAnywhere(got, last, pathLength, base, workers);
    }
  }

  /** The probes tried are a first part of `order`, and only the last of them yielded anything. */
  ghost predicate Succeeds(order: seq<Probe>, got: Probe -> nat, tried: seq<Probe>, stolen: nat, at: Probe) {
    && 0 < |tried| <= |order| && tried == order[..|tried|]
    && Fruitless(got, tried[..|tried| - 1])
    && tried[|tried| - 1] == at && got(at) == stolen != 0
  }

  lemma {:induction false} SweepBegins(positions: seq<nat>, workers: seq<nat>, i: nat)
    requires i <= |positions|
    ensures var part, whole := Sweep(positions[..i], workers), Sweep(positions, workers);
            |part| <= |whole| && part == whole[..|part|]
    decreases |positions|
  {
    if i < |positions| {
      var front := positions[..|positions| - 1];
      SweepBegins(front, workers, i);
      assert front[..i] == positions[..i];
    } else {
      assert positions[..i] == positions;
    }
  }
}
