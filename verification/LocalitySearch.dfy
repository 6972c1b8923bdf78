/**
  The breadth-first search of src/hclib-locality-graph.c for the closest locale of
  one of the requested types.
 */
module LocalitySearch {
  import opened Common

  /** `n` locales with their types, and the n-by-n matrix of edges by rows. */
  datatype Graph = Graph(n: nat, types: seq<int>, edges: seq<seq<nat>>)

  ghost predicate WellFormed(g: Graph) {
    |g.types| == g.n && |g.edges| == g.n && forall u :: 0 <= u < g.n ==> |g.edges[u]| == g.n
  }

  ghost predicate Edge(g: Graph, u: nat, v: nat)
    requires WellFormed(g) && u < g.n && v < g.n
  {
    g.edges[u][v] != 0
  }

  /** Some walk of `m` edges leads from `s` to `w`. */
  ghost predicate Walk(g: Graph, s: nat, w: nat, m: nat)
    requires WellFormed(g)
    decreases m
  {
    if m == 0 then w == s < g.n
    else w < g.n && exists u: nat :: u < g.n && Walk(g, s, u, m - 1) && Edge(g, u, w)
  }

  ghost predicate Reachable(g: Graph, s: nat, w: nat)
    requires WellFormed(g)
  {
    exists m: nat :: Walk(g, s, w, m)
  }

  ghost predicate Wanted(g: Graph, types: seq<int>, w: nat)
    requires WellFormed(g)
  {
    w < g.n && g.types[w] in types
  }

  /**
    What the search relies on: a locale of a requested type can be reached, or every
    locale can.  DefinedIffSearchable says that this is what it takes.
   */
  ghost predicate Searchable(g: Graph, s: nat, types: seq<int>)
    requires WellFormed(g)
  {
    || (exists w :: Wanted(g, types, w) && Reachable(g, s, w))
    || (forall w :: 0 <= w < g.n ==> Reachable(g, s, w))
  }

  /** A connected graph: there is a walk between any two locales. */
  ghost predicate Connected(g: Graph)
    requires WellFormed(g)
  {
    forall u, w :: 0 <= u < g.n && 0 <= w < g.n ==> Reachable(g, u, w)
  }

  lemma ConnectedIsSearchable(g: Graph, s: nat, types: seq<int>)
    requires WellFormed(g) && Connected(g) && s < g.n
    ensures Searchable(g, s, types)
  {
  }

  // ---------------------------------------------------------------------
  // The queue
  // ---------------------------------------------------------------------

  ghost predicate Distinct(q: seq<nat>) {
    forall i, j :: 0 <= i < j < |q| ==> q[i] != q[j]
  }

  /** The locales met so far, in order of the distances `levels`. */
  ghost predicate Queue(g: Graph, s: nat, q: seq<nat>, levels: seq<nat>)
    requires WellFormed(g)
  {
    && |q| == |levels| >= 1 && q[0] == s && levels[0] == 0
    && Distinct(q)
    && (forall j :: 0 <= j < |q| ==> q[j] < g.n && Walk(g, s, q[j], levels[j]))
    && (forall i, j :: 0 <= i < j < |q| ==> levels[i] <= levels[j])
  }

  /** Locale `w` is in the queue at level `l` at most. */
  ghost predicate Has(q: seq<nat>, levels: seq<nat>, w: nat, l: nat) {
    exists j :: 0 <= j < |q| && j < |levels| && q[j] == w && levels[j] <= l
  }

  /** The neighbours below `upto` of the locale at `k` have been met. */
  ghost predicate Expanded(g: Graph, q: seq<nat>, levels: seq<nat>, k: nat, upto: nat)
    requires WellFormed(g)
  {
    && k < |q| && k < |levels| && q[k] < g.n
    && forall i :: 0 <= i < upto && i < g.n && Edge(g, q[k], i) ==> Has(q, levels, i, levels[k] + 1)
  }

  lemma ExpandedStays(g: Graph, q: seq<nat>, levels: seq<nat>, k: nat, upto: nat, i: nat, l: nat)
    requires WellFormed(g) && Expanded(g, q, levels, k, upto) && |q| == |levels|
    ensures Expanded(g, q + [i], levels + [l], k, upto)
  {
    var q', levels' := q + [i], levels + [l];
    forall v | 0 <= v < upto && v < g.n && Edge(g, q'[k], v)
      ensures Has(q', levels', v, levels'[k] + 1)
    {
      assert Has(q, levels, v, levels[k] + 1);
      var j :| 0 <= j < |q| && q[j] == v && levels[j] <= levels[k] + 1;
      assert q'[j] == v && levels'[j] <= levels'[k] + 1;
    }
  }

  /** A new neighbour of the locale at `k` goes to the end, one level further. */
  lemma Enqueue(g: Graph, s: nat, q: seq<nat>, levels: seq<nat>, k: nat, i: nat)
    requires WellFormed(g) && Queue(g, s, q, levels) && k < |q|
    requires forall j :: 0 <= j < |q| ==> levels[j] <= levels[k] + 1
    requires i < g.n && i !in q && Edge(g, q[k], i)
    ensures Queue(g, s, q + [i], levels + [levels[k] + 1])
  {
    assert Walk(g, s, q[k], levels[k]);
    assert Walk(g, s, i, levels[k] + 1);
  }

  /** The locale at `k` is being expanded: the earlier ones are done, and so are its neighbours below `i`. */
  ghost predicate Frontier(g: Graph, s: nat, q: seq<nat>, levels: seq<nat>, k: nat, i: nat)
    requires WellFormed(g)
  {
    && Queue(g, s, q, levels) && k < |q| && i <= g.n
    && (forall j :: 0 <= j < |q| ==> levels[j] <= levels[k] + 1)
    && (forall j :: 0 <= j < k ==> Expanded(g, q, levels, j, g.n))
    && Expanded(g, q, levels, k, i)
  }

  /** The queue after the one neighbour `i` of the locale at `k` has been looked at. */
  function Met(g: Graph, q: seq<nat>, k: nat, i: nat): seq<nat>
    requires WellFormed(g) && k < |q| && q[k] < g.n && i < g.n
  {
    if g.edges[q[k]][i] != 0 && i !in q then q + [i] else q
  }

  /** The queue after the neighbours from `i` on of the locale at `k` have been looked at. */
  function Grown(g: Graph, q: seq<nat>, k: nat, i: nat): seq<nat>
    requires WellFormed(g) && k < |q| && q[k] < g.n
    decreases g.n - i
  {
    if i >= g.n then q else Grown(g, Met(g, q, k, i), k, i + 1)
  }

  lemma FrontierMeets(g: Graph, s: nat, q: seq<nat>, levels: seq<nat>, k: nat, i: nat)
    requires WellFormed(g) && Frontier(g, s, q, levels, k, i) && i < g.n && i !in q && Edge(g, q[k], i)
    ensures Frontier(g, s, q + [i], levels + [levels[k] + 1], k, i + 1)
  {
    var l := levels[k] + 1;
    Enqueue(g, s, q, levels, k, i);
    forall j | 0 <= j < k
      ensures Expanded(g, q + [i], levels + [l], j, g.n)
    {
      ExpandedStays(g, q, levels, j, g.n, i, l);
    }
    ExpandedStays(g, q, levels, k, i, i, l);
    assert (q + [i])[|q|] == i && (levels + [l])[|q|] == l;
    assert Has(q + [i], levels + [l], i, l);
  }

  lemma FrontierPasses(g: Graph, s: nat, q: seq<nat>, levels: seq<nat>, k: nat, i: nat)
    requires WellFormed(g) && Frontier(g, s, q, levels, k, i) && i < g.n && (i in q || !Edge(g, q[k], i))
    ensures Frontier(g, s, q, levels, k, i + 1)
  {
    if i in q {
      var j :| 0 <= j < |q| && q[j] == i;
      assert levels[j] <= levels[k] + 1;
      assert Has(q, levels, i, levels[k] + 1);
    }
  }

  /** The levels of that queue: a new locale is one further than the one at `k`. */
  ghost function MetLevels(g: Graph, q: seq<nat>, levels: seq<nat>, k: nat, i: nat): seq<nat>
    requires WellFormed(g) && k < |q| == |levels| && q[k] < g.n && i < g.n
  {
    if |Met(g, q, k, i)| > |q| then levels + [levels[k] + 1] else levels
  }

  ghost function GrownLevels(g: Graph, q: seq<nat>, levels: seq<nat>, k: nat, i: nat): seq<nat>
    requires WellFormed(g) && k < |q| == |levels| && q[k] < g.n
    decreases g.n - i
  {
    if i >= g.n then levels
    else GrownLevels(g, Met(g, q, k, i), MetLevels(g, q, levels, k, i), k, i + 1)
  }

  lemma FrontierMoves(g: Graph, s: nat, q: seq<nat>, levels: seq<nat>, k: nat, i: nat)
    requires WellFormed(g) && Frontier(g, s, q, levels, k, i) && i < g.n
    ensures Frontier(g, s, Met(g, q, k, i), MetLevels(g, q, levels, k, i), k, i + 1)
  {
    if Edge(g, q[k], i) && i !in q {
      FrontierMeets(g, s, q, levels, k, i);
    } else {
      FrontierPasses(g, s, q, levels, k, i);
    }
  }

  lemma {:induction false} GrownExtends(g: Graph, q: seq<nat>, levels: seq<nat>, k: nat, i: nat)
    requires WellFormed(g) && k < |q| == |levels| && q[k] < g.n
    ensures |q| <= |Grown(g, q, k, i)| && Grown(g, q, k, i)[..|q|] == q
    ensures |levels| <= |GrownLevels(g, q, levels, k, i)| && GrownLevels(g, q, levels, k, i)[..|levels|] == levels
    decreases g.n - i
  {
    if i < g.n {
      GrownExtends(g, Met(g, q, k, i), MetLevels(g, q, levels, k, i), k, i + 1);
    }
  }

  lemma {:induction false} GrownIsExpanded(g: Graph, s: nat, q: seq<nat>, levels: seq<nat>, k: nat, i: nat)
    requires WellFormed(g) && Frontier(g, s, q, levels, k, i)
    ensures Frontier(g, s, Grown(g, q, k, i), GrownLevels(g, q, levels, k, i), k, g.n)
    decreases g.n - i
  {
    if i < g.n {
      FrontierMoves(g, s, q, levels, k, i);
      GrownIsExpanded(g, s, Met(g, q, k, i), MetLevels(g, q, levels, k, i), k, i + 1);
    }
  }

  /** The first `done` locales of the queue have been expanded, and none of them was wanted. */
  ghost predicate Searched(g: Graph, s: nat, types: seq<int>, q: seq<nat>, levels: seq<nat>, done: nat)
    requires WellFormed(g)
  {
    && Queue(g, s, q, levels) && done <= |q|
    && (forall k :: 0 <= k < done ==> Expanded(g, q, levels, k, g.n) && !Wanted(g, types, q[k]))
    && (done < |q| ==> forall j :: 0 <= j < |q| ==> levels[j] <= levels[done] + 1)
  }

  lemma SearchGoesOn(g: Graph, s: nat, types: seq<int>, q: seq<nat>, levels: seq<nat>, done: nat)
    requires WellFormed(g) && Searched(g, s, types, q, levels, done) && done < |q|
    requires !Wanted(g, types, q[done])
    ensures var q' := Grown(g, q, done, 0);
            Searched(g, s, types, q', GrownLevels(g, q, levels, done, 0), done + 1)
  {
    assert Frontier(g, s, q, levels, done, 0);
    GrownIsExpanded(g, s, q, levels, done, 0);
    GrownExtends(g, q, levels, done, 0);
    var q' := Grown(g, q, done, 0);
    var levels' := GrownLevels(g, q, levels, done, 0);
    forall k | 0 <= k < done + 1
      ensures Expanded(g, q', levels', k, g.n) && !Wanted(g, types, q'[k])
    {
      assert q'[k] == q'[..|q|][k] == q[k];
    }
  }

  /**
    However long a walk, its end has been met at a level no greater than the number
    of its edges, unless the walk passes a locale still waiting in the queue.
   */
  lemma {:induction false} WalkIsCovered(g: Graph, s: nat, q: seq<nat>, levels: seq<nat>, done: nat, w: nat, m: nat)
    requires WellFormed(g) && Queue(g, s, q, levels) && done <= |q|
    requires forall k :: 0 <= k < done ==> Expanded(g, q, levels, k, g.n)
    requires Walk(g, s, w, m)
    ensures Has(q, levels, w, m) || exists j :: done <= j < |q| && levels[j] < m
    decreases m
  {
    if m == 0 {
      assert q[0] == w && levels[0] <= m;
    } else {
      var u: nat :| u < g.n && Walk(g, s, u, m - 1) && Edge(g, u, w);
      WalkIsCovered(g, s, q, levels, done, u, m - 1);
      if Has(q, levels, u, m - 1) {
        var k :| 0 <= k < |q| && q[k] == u && levels[k] <= m - 1;
        if k < done {
          assert Expanded(g, q, levels, k, g.n);
          var j :| 0 <= j < |q| && q[j] == w && levels[j] <= levels[k] + 1;
          assert levels[j] <= m;
        }
      }
    }
  }

  /** The first wanted locale in the queue is at minimum distance. */
  lemma FirstIsClosest(g: Graph, s: nat, q: seq<nat>, levels: seq<nat>, done: nat, types: seq<int>, w: nat, m: nat)
    requires WellFormed(g) && Queue(g, s, q, levels) && done < |q|
    requires forall k :: 0 <= k < done ==> Expanded(g, q, levels, k, g.n)
    requires forall k :: 0 <= k < done ==> !Wanted(g, types, q[k])
    requires Walk(g, s, w, m) && Wanted(g, types, w)
    ensures levels[done] <= m
  {
    WalkIsCovered(g, s, q, levels, done, w, m);
    if Has(q, levels, w, m) {
      var j :| 0 <= j < |q| && q[j] == w && levels[j] <= m;
      assert j >= done;
    }
  }

  /** With nothing left waiting every reachable locale has been met. */
  lemma DrainedHasAll(g: Graph, s: nat, q: seq<nat>, levels: seq<nat>, w: nat)
    requires WellFormed(g) && Queue(g, s, q, levels)
    requires forall k :: 0 <= k < |q| ==> Expanded(g, q, levels, k, g.n)
    requires Reachable(g, s, w)
    ensures w in q
  {
    var m: nat :| Walk(g, s, w, m);
    WalkIsCovered(g, s, q, levels, |q|, w, m);
  }

  // ---------------------------------------------------------------------
  // Counting
  // ---------------------------------------------------------------------

  ghost function Elements(q: seq<nat>): set<nat> {
    set x | x in q
  }

  lemma {:induction false} DistinctSize(q: seq<nat>)
    requires Distinct(q)
    ensures |Elements(q)| == |q|
  {
    if q != [] {
      var front, x := q[..|q| - 1], q[|q| - 1];
      DistinctSize(front);
      assert Elements(q) == Elements(front) + {x};
    }
  }

  /** The numbers below `n`. */
  ghost function Under(n: nat): (s: set<nat>)
    ensures forall x :: x in s <==> 0 <= x < n
    ensures |s| == n
  {
    if n == 0 then {} else Under(n - 1) + {n - 1}
  }

  lemma SubsetSize(a: set<nat>, b: set<nat>)
    requires a <= b
    ensures |a| <= |b|
  {
    assert b == a + (b - a);
  }

  /** Different numbers below `n`. */
  ghost predicate Bounded(q: seq<nat>, n: nat) {
    Distinct(q) && forall j :: 0 <= j < |q| ==> q[j] < n
  }

  /** A queue without repetition has room for one more locale that is not in it. */
  lemma RoomForOneMore(q: seq<nat>, i: nat, n: nat)
    requires Bounded(q, n) && i !in q && i < n
    ensures |q| < n && Bounded(q + [i], n)
  {
    var q' := q + [i];
    DistinctSize(q');
    SubsetSize(Elements(q'), Under(n));
  }

  lemma AllMetIsFull(q: seq<nat>, n: nat)
    requires Distinct(q) && forall w :: 0 <= w < n ==> w in q
    ensures |q| >= n
  {
    DistinctSize(q);
    SubsetSize(Under(n), Elements(q));
  }

  lemma AllMet(q: seq<nat>, n: nat)
    requires Bounded(q, n) && |q| == n
    ensures forall w :: 0 <= w < n ==> w in q
  {
    forall w | 0 <= w < n
      ensures w in q
    {
      if w !in q {
        RoomForOneMore(q, w, n);
      }
    }
  }

  /** The queue does not run dry before all locales have been visited. */
  lemma StillWaiting(g: Graph, s: nat, types: seq<int>, q: seq<nat>, levels: seq<nat>, done: nat)
    requires WellFormed(g) && Searchable(g, s, types) && Searched(g, s, types, q, levels, done) && done < g.n
    ensures done < |q|
  {
    if done == |q| {
      if w :| Wanted(g, types, w) && Reachable(g, s, w) {
        DrainedHasAll(g, s, q, levels, w);
      } else {
        forall w | 0 <= w < g.n
          ensures w in q
        {
          DrainedHasAll(g, s, q, levels, w);
        }
        AllMetIsFull(q, g.n);
      }
    }
  }

  lemma NothingWanted(g: Graph, s: nat, types: seq<int>, q: seq<nat>, levels: seq<nat>)
    requires WellFormed(g) && Searched(g, s, types, q, levels, g.n) && |q| <= g.n
    ensures forall w :: 0 <= w < g.n ==> g.types[w] !in types
  {
    AllMet(q, g.n);
    forall w | 0 <= w < g.n
      ensures g.types[w] !in types
    {
      assert w in q;
      var j :| 0 <= j < |q| && q[j] == w;
      assert !Wanted(g, types, q[j]);
    }
  }

  /** A locale of a requested type, with no other nearer to `s`. */
  ghost predicate IsClosest(g: Graph, s: nat, types: seq<int>, v: nat)
    requires WellFormed(g)
  {
    && Wanted(g, types, v)
    && exists m: nat :: Walk(g, s, v, m)
                        && forall w: nat, k: nat :: Walk(g, s, w, k) && Wanted(g, types, w) ==> m <= k
  }

  lemma ClosestFound(g: Graph, s: nat, types: seq<int>, q: seq<nat>, levels: seq<nat>, done: nat)
    requires WellFormed(g) && Searched(g, s, types, q, levels, done) && done < |q|
    requires Wanted(g, types, q[done])
    ensures IsClosest(g, s, types, q[done])
  {
    forall w: nat, k: nat | Walk(g, s, w, k) && Wanted(g, types, w)
      ensures levels[done] <= k
    {
      FirstIsClosest(g, s, q, levels, done, types, w, k);
    }
    assert Walk(g, s, q[done], levels[done]);
  }

  // ---------------------------------------------------------------------
  // The queue from the start
  // ---------------------------------------------------------------------

  /** The queue after the first `k` turns of the main loop, each of which expands one more of its entries. */
  ghost function QueueAfter(g: Graph, s: nat, k: nat): seq<nat>
    requires WellFormed(g)
  {
    if k == 0 then [s]
    else
      var q := QueueAfter(g, s, k - 1);
      if k - 1 < |q| && q[k - 1] < g.n then Grown(g, q, k - 1, 0) else q
  }

  ghost function LevelsAfter(g: Graph, s: nat, k: nat): seq<nat>
    requires WellFormed(g)
  {
    if k == 0 then [0]
    else
      var q, levels := QueueAfter(g, s, k - 1), LevelsAfter(g, s, k - 1);
      if k - 1 < |q| == |levels| && q[k - 1] < g.n then GrownLevels(g, q, levels, k - 1, 0) else levels
  }

  lemma SearchStarts(g: Graph, s: nat, types: seq<int>)
    requires WellFormed(g) && s < g.n
    ensures Searched(g, s, types, QueueAfter(g, s, 0), LevelsAfter(g, s, 0), 0)
  {
    assert Walk(g, s, s, 0);
  }

  /** The search stands before its `k`-th turn. */
  ghost predicate AtTurn(g: Graph, s: nat, types: seq<int>, k: nat)
    requires WellFormed(g)
  {
    Searched(g, s, types, QueueAfter(g, s, k), LevelsAfter(g, s, k), k)
  }

  lemma QueueNext(g: Graph, s: nat, k: nat, next: nat, q: seq<nat>)
    requires WellFormed(g) && next == k + 1 && q == QueueAfter(g, s, k)
    requires k < |q| && q[k] < g.n
    ensures QueueAfter(g, s, next) == Grown(g, q, k, 0)
  {
    assert next - 1 == k;
  }

  lemma LevelsNext(g: Graph, s: nat, k: nat, next: nat, q: seq<nat>, levels: seq<nat>)
    requires WellFormed(g) && next == k + 1 && q == QueueAfter(g, s, k) && levels == LevelsAfter(g, s, k)
    requires k < |q| == |levels| && q[k] < g.n
    ensures LevelsAfter(g, s, next) == GrownLevels(g, q, levels, k, 0)
  {
    assert next - 1 == k;
  }

  lemma TurnSearches(g: Graph, s: nat, types: seq<int>, k: nat, next: nat)
    requires WellFormed(g) && AtTurn(g, s, types, k) && PassesTurn(g, s, types, k) && next == k + 1
    ensures AtTurn(g, s, types, next)
  {
    var q, levels := QueueAfter(g, s, k), LevelsAfter(g, s, k);
    QueueNext(g, s, k, next, q);
    LevelsNext(g, s, k, next, q, levels);
    SearchGoesOn(g, s, types, q, levels, k);
  }

  /** Before an entry is read: it has been written, and the next queue is the one the inner loop makes. */
  lemma TurnReads(g: Graph, s: nat, types: seq<int>, k: nat, next: nat, q: seq<nat>)
    requires WellFormed(g) && Searchable(g, s, types) && AtTurn(g, s, types, k) && k < g.n
    requires q == QueueAfter(g, s, k) && next == k + 1
    ensures k < |q| && q[k] < g.n && Bounded(q, g.n)
    ensures QueueAfter(g, s, next) == Grown(g, q, k, 0)
  {
    StillWaiting(g, s, types, q, LevelsAfter(g, s, k), k);
  }

  /** Entry `j` of the queue has been written when it is read, and is not wanted. */
  ghost predicate PassesTurn(g: Graph, s: nat, types: seq<int>, j: nat)
    requires WellFormed(g)
  {
    j < |QueueAfter(g, s, j)| && !Wanted(g, types, QueueAfter(g, s, j)[j])
  }

  lemma TurnWaits(g: Graph, s: nat, types: seq<int>, k: nat)
    requires WellFormed(g) && Searchable(g, s, types) && AtTurn(g, s, types, k) && k < g.n
    ensures k < |QueueAfter(g, s, k)|
  {
    StillWaiting(g, s, types, QueueAfter(g, s, k), LevelsAfter(g, s, k), k);
  }

  lemma TurnFinds(g: Graph, s: nat, types: seq<int>, k: nat, q: seq<nat>)
    requires WellFormed(g) && AtTurn(g, s, types, k) && q == QueueAfter(g, s, k)
    requires k < |q| && Wanted(g, types, q[k])
    ensures IsClosest(g, s, types, q[k])
  {
    ClosestFound(g, s, types, q, LevelsAfter(g, s, k), k);
  }

  /** The main loop gets as far as its `k`-th turn: each entry read before had been written and was not wanted. */
  ghost predicate GetsTo(g: Graph, s: nat, types: seq<int>, k: nat)
    requires WellFormed(g) && s < g.n
  {
    forall j: nat :: j < k ==> PassesTurn(g, s, types, j)
  }

  lemma {:induction false} GettingThereIsSearching(g: Graph, s: nat, types: seq<int>, k: nat)
    requires WellFormed(g) && s < g.n && GetsTo(g, s, types, k)
    ensures AtTurn(g, s, types, k)
    decreases k
  {
    if k == 0 {
      SearchStarts(g, s, types);
    } else {
      assert PassesTurn(g, s, types, k - 1);
      GettingThereIsSearching(g, s, types, k - 1);
      TurnSearches(g, s, types, k - 1, k);
    }
  }

  lemma GetsFurther(g: Graph, s: nat, types: seq<int>, k: nat, next: nat)
    requires WellFormed(g) && s < g.n && GetsTo(g, s, types, k) && PassesTurn(g, s, types, k) && next == k + 1
    ensures GetsTo(g, s, types, next)
  {
    forall j: nat | j < next
      ensures PassesTurn(g, s, types, j)
    {
      if j == k {
        assert PassesTurn(g, s, types, k);
      }
    }
  }

  /** After the last turn nothing was wanted. */
  lemma LastTurnFindsNothing(g: Graph, s: nat, types: seq<int>, q: seq<nat>)
    requires WellFormed(g) && s < g.n && GetsTo(g, s, types, g.n) && q == QueueAfter(g, s, g.n) && |q| <= g.n
    ensures forall w :: 0 <= w < g.n ==> g.types[w] !in types
  {
    GettingThereIsSearching(g, s, types, g.n);
    NothingWanted(g, s, types, q, LevelsAfter(g, s, g.n));
  }

  lemma QueueIsDistinct(g: Graph, s: nat, types: seq<int>, k: nat, q: seq<nat>)
    requires WellFormed(g) && s < g.n && GetsTo(g, s, types, k) && q == QueueAfter(g, s, k)
    ensures Distinct(q)
  {
    GettingThereIsSearching(g, s, types, k);
  }

  // ---------------------------------------------------------------------
  // The search
  // ---------------------------------------------------------------------

  /** contains */
  method Contains(target: int, list: seq<int>) returns (r: bool)
    ensures r <==> target in list
  {
    var i := 0;
    while i < |list|
      invariant 0 <= i <= |list| && target !in list[..i]
    {
      if list[i] == target {
        return true;
      }
      i := i + 1;
    }
    return false;
  }

  /** The body of the inner loop: neighbour `i` of the locale at `k` enters the queue unless it has been met. */
  method Meet(g: Graph, toVisit: array<nat>, filled: nat, k: nat, i: nat) returns (filled': nat)
    requires WellFormed(g) && k < filled <= g.n == toVisit.Length && i < g.n
    requires Bounded(toVisit[..filled], g.n)
    modifies toVisit
    ensures filled <= filled' <= g.n
    ensures toVisit[..filled'] == Met(g, old(toVisit[..filled]), k, i) && Bounded(toVisit[..filled'], g.n)
  {
    ghost var q := toVisit[..filled];
    assert toVisit[k] == q[k];
    filled' := filled;
    var met := Contains(i, toVisit[..filled]);
    if g.edges[toVisit[k]][i] != 0 && !met {
      RoomForOneMore(q, i, g.n);
      toVisit[filled] := i;
      filled' := filled + 1;
      assert toVisit[..filled'] == q + [i];
    }
  }

  /** The inner loop: the neighbours of the locale at `k` that have not been met enter the queue. */
  method Expand(g: Graph, toVisit: array<nat>, filled: nat, k: nat) returns (filled': nat)
    requires WellFormed(g) && k < filled <= g.n == toVisit.Length
    requires Bounded(toVisit[..filled], g.n)
    modifies toVisit
    ensures filled' <= g.n && toVisit[..filled'] == Grown(g, old(toVisit[..filled]), k, 0)
  {
    filled' := filled;
    var i := 0;
    while i < g.n
      invariant 0 <= i <= g.n && k < filled' <= g.n && Bounded(toVisit[..filled'], g.n)
      invariant Grown(g, toVisit[..filled'], k, i) == Grown(g, old(toVisit[..filled]), k, 0)
    {
      filled' := Meet(g, toVisit, filled', k, i);
      i := i + 1;
    }
  }

  /** One turn of the main loop: read the next entry, and expand it unless it is wanted. */
  method Visit(g: Graph, s: nat, types: seq<int>, toVisit: array<nat>, filled: nat, visiting: nat, ghost next: nat)
    returns (found: bool, filled': nat)
    requires WellFormed(g) && s < g.n && Searchable(g, s, types) && toVisit.Length == g.n && filled <= g.n
    requires visiting < g.n && next == visiting + 1
    requires toVisit[..filled] == QueueAfter(g, s, visiting) && GetsTo(g, s, types, visiting)
    modifies toVisit
    ensures visiting < filled && filled' <= g.n
    ensures found ==> toVisit[..filled] == QueueAfter(g, s, visiting) && IsClosest(g, s, types, toVisit[visiting])
    ensures !found ==> toVisit[..filled'] == QueueAfter(g, s, next) && GetsTo(g, s, types, next)
  {
    ghost var q := toVisit[..filled];
    GettingThereIsSearching(g, s, types, visiting);
    TurnReads(g, s, types, visiting, next, q);
    var curr := toVisit[visiting];
    assert curr == q[visiting];
    found := Contains(g.types[curr], types);
    filled' := filled;
    if found {
      TurnFinds(g, s, types, visiting, q);
    } else {
      assert PassesTurn(g, s, types, visiting);
      GetsFurther(g, s, types, visiting, next);
      filled' := Expand(g, toVisit, filled, visiting);
    }
  }

  /** A closest locale has a requested type. */
  lemma ClosestIsWanted(g: Graph, s: nat, types: seq<int>, v: nat)
    requires WellFormed(g) && IsClosest(g, s, types, v)
    ensures v < g.n && g.types[v] in types
  {
  }

  /**
    hclib_get_closest_locale_of_types: a locale of a requested type at minimum
    distance from `s`, or None exactly if no locale has a requested type.  `met` is
    the queue at the end, after `turns` locales have been expanded: every locale
    entered it at most once.
   */
  method Closest(g: Graph, s: nat, types: seq<int>) returns (r: Option<nat>, ghost met: seq<nat>, ghost turns: nat)
    requires WellFormed(g) && s < g.n && Searchable(g, s, types)
    ensures r.None? <==> forall w :: 0 <= w < g.n ==> g.types[w] !in types
    ensures r.Some? ==> IsClosest(g, s, types, r.value)
    ensures met == QueueAfter(g, s, turns) && Distinct(met)
    ensures r.Some? ==> turns < |met| && met[turns] == r.value
    ensures r.None? ==> turns == g.n
  {
    var toVisit := new nat[g.n](_ => 0);
    toVisit[0] := s;
    var visiting: nat, filled: nat := 0, 1;
    assert toVisit[..1] == [s];
    while visiting < g.n
      invariant visiting <= g.n && filled <= g.n == toVisit.Length
      invariant toVisit[..filled] == QueueAfter(g, s, visiting) && GetsTo(g, s, types, visiting)
    {
      QueueIsDistinct(g, s, types, visiting, toVisit[..filled]);
      var found, filled' := Visit(g, s, types, toVisit, filled, visiting, visiting + 1);
      if found {
        ClosestIsWanted(g, s, types, toVisit[visiting]);
        return Some(toVisit[visiting]), toVisit[..filled], visiting;
      }
      filled, visiting := filled', visiting + 1;
    }
    met, turns := toVisit[..filled], visiting;
    QueueIsDistinct(g, s, types, visiting, met);
    LastTurnFindsNothing(g, s, types, met);
    return None, met, turns;
  }

  // ---------------------------------------------------------------------
  // Where the search is defined
  // ---------------------------------------------------------------------

  /** The search never reads an entry of its queue that it has not written. */
  ghost predicate ReadsOnlyWritten(g: Graph, s: nat, types: seq<int>)
    requires WellFormed(g) && s < g.n
  {
    forall k: nat :: k < g.n && GetsTo(g, s, types, k) ==> k < |QueueAfter(g, s, k)|
  }

  /** Where neither condition holds the queue never has a wanted locale, and never all of them. */
  lemma UnsearchableRunsDry(g: Graph, s: nat, types: seq<int>, q: seq<nat>, levels: seq<nat>)
    requires WellFormed(g) && !Searchable(g, s, types) && Queue(g, s, q, levels)
    ensures |q| < g.n
    ensures forall j :: 0 <= j < |q| ==> !Wanted(g, types, q[j])
  {
    var w: nat :| w < g.n && !Reachable(g, s, w);
    forall j | 0 <= j < |q|
      ensures q[j] != w && !Wanted(g, types, q[j])
    {
      assert Walk(g, s, q[j], levels[j]);
      assert Reachable(g, s, q[j]);
    }
    RoomForOneMore(q, w, g.n);
  }

  lemma UnsearchablePasses(g: Graph, s: nat, types: seq<int>, k: nat)
    requires WellFormed(g) && !Searchable(g, s, types) && AtTurn(g, s, types, k)
    ensures |QueueAfter(g, s, k)| < g.n
    ensures k < |QueueAfter(g, s, k)| ==> PassesTurn(g, s, types, k)
  {
    UnsearchableRunsDry(g, s, types, QueueAfter(g, s, k), LevelsAfter(g, s, k));
  }

  lemma UnsearchableTurn(g: Graph, s: nat, types: seq<int>, k: nat)
    requires WellFormed(g) && s < g.n && !Searchable(g, s, types) && ReadsOnlyWritten(g, s, types)
    requires GetsTo(g, s, types, k) && k < g.n
    ensures PassesTurn(g, s, types, k)
  {
    GettingThereIsSearching(g, s, types, k);
    UnsearchablePasses(g, s, types, k);
  }

  lemma {:induction false} UnsearchableGoesOn(g: Graph, s: nat, types: seq<int>, k: nat)
    requires WellFormed(g) && s < g.n && !Searchable(g, s, types) && ReadsOnlyWritten(g, s, types) && k <= g.n
    ensures GetsTo(g, s, types, k)
    decreases k
  {
    if k > 0 {
      UnsearchableGoesOn(g, s, types, k - 1);
      UnsearchableTurn(g, s, types, k - 1);
      GetsFurther(g, s, types, k - 1, k);
    }
  }

  /**
    The search reads only entries it has written if and only if a locale of a
    requested type can be reached from the start, or every locale can.
   */
  lemma DefinedIffSearchable(g: Graph, s: nat, types: seq<int>)
    requires WellFormed(g) && s < g.n
    ensures ReadsOnlyWritten(g, s, types) <==> Searchable(g, s, types)
  {
    if Searchable(g, s, types) {
      forall k: nat | k < g.n && GetsTo(g, s, types, k)
        ensures k < |QueueAfter(g, s, k)|
      {
        GettingThereIsSearching(g, s, types, k);
        TurnWaits(g, s, types, k);
      }
    } else if ReadsOnlyWritten(g, s, types) {
      UnsearchableGoesOn(g, s, types, g.n - 1);
      GettingThereIsSearching(g, s, types, g.n - 1);
      UnsearchablePasses(g, s, types, g.n - 1);
      assert false;
    }
  }

  /** Two locales without an edge, the second of the requested type. */
  const Split := Graph(2, [1, 2], [[0, 0], [0, 0]])

  lemma {:induction false} SplitStaysHome(w: nat, m: nat)
    requires WellFormed(Split) && Walk(Split, 0, w, m)
    ensures w == 0
    decreases m
  {
    if m > 0 {
      var u: nat :| u < 2 && Walk(Split, 0, u, m - 1) && Edge(Split, u, w);
    }
  }

  /** There the search for the second from the first reads an entry it has not written. */
  lemma SplitReadsUnwritten()
    ensures WellFormed(Split) && !ReadsOnlyWritten(Split, 0, [2])
  {
    forall m: nat
      ensures !Walk(Split, 0, 1, m)
    {
      if Walk(Split, 0, 1, m) {
        SplitStaysHome(1, m);
      }
    }
    assert !Reachable(Split, 0, 1);
    DefinedIffSearchable(Split, 0, [2]);
  }
}
