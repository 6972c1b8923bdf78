/**
  Every call of spawn and put comes to an end: a thread that runs on while the others
  stand still returns, from every reachable state.
 */
module PromiseProgress {
  import opened Common
  import opened PromiseWaitLists

  function Max(a: int, b: int): int {
    if a > b then a else b
  }

  /** How many turns the cursor has before it. */
  function Left(r: TaskRec): nat {
    Max(Max(|r.futures|, MAX_NUM_WAITS) - 1 - r.index, 0)
  }

  function TaskCost(s: State, t: TaskId): nat {
    if t in s.tasks then 10 * Left(s.tasks[t]) + 10 else 10
  }

  /** A bound on the steps it takes to walk `rest`. */
  function WalkCost(s: State, rest: seq<TaskId>): nat {
    if rest == [] then 1 else TaskCost(s, rest[0]) + WalkCost(s, rest[1..])
  }

  function ThenCost(s: State, k: Then): nat {
    match k
    case Spawning => 0
    case Walking(_, _, rest) => WalkCost(s, rest)
  }

  function Head(s: State, p: Promise): Ptr {
    if p in s.promises then s.promises[p].head else Satisfied
  }

  function List(s: State, p: Promise): seq<TaskId> {
    if p in s.lists then s.lists[p] else []
  }

  /** A bound on the steps of the call in progress, as long as no other thread moves the heads it has read. */
  function Rank(s: State, pc: Pc): nat {
    match pc
    case Idle => 0
    case Advance(t, k, again) => TaskCost(s, t) + ThenCost(s, k) - (if again then 2 else 1)
    case ReadHead(t, k, _, _) => TaskCost(s, t) + 5 + ThenCost(s, k)
    case SetNext(t, k, _, p, cur) => TaskCost(s, t) + (if Head(s, p) == cur then 3 else 7) + ThenCost(s, k)
    case CasHead(t, k, _, p, cur) => TaskCost(s, t) + (if Head(s, p) == cur then 2 else 6) + ThenCost(s, k)
    case Schedule(_, k) => 1 + ThenCost(s, k)
    case PutRead(p) => WalkCost(s, List(s, p)) + 6
    case PutDatum(p, _) => WalkCost(s, List(s, p)) + 5
    case PutCas(p, w) => WalkCost(s, List(s, p)) + if Head(s, p) == w then 1 else 3
    case PutReread(p) => WalkCost(s, List(s, p)) + 2
    case Walk(_, curr, rest) => WalkCost(s, rest)
  }

  lemma {:induction false} WalkCostSame(s: State, s': State, rest: seq<TaskId>)
    requires forall t <- rest :: TaskCost(s', t) == TaskCost(s, t)
    ensures WalkCost(s', rest) == WalkCost(s, rest)
    decreases |rest|
  {
    if rest != [] {
      WalkCostSame(s, s', rest[1..]);
    }
  }

  lemma ThenCostSame(s: State, s': State, k: Then)
    requires k.Walking? ==> forall t <- k.rest :: TaskCost(s', t) == TaskCost(s, t)
    ensures ThenCost(s', k) == ThenCost(s, k)
  {
    if k.Walking? {
      WalkCostSame(s, s', k.rest);
    }
  }

  /** The task a thread advances is none of those it has still to walk. */
  lemma HeldIsNotAhead(s: State, th: Thread, k: Then, t: TaskId)
    requires ThenInv(s, th, k) && t in s.place && s.place[t] == Held(th)
    ensures k.Walking? ==> t !in k.rest
  {
  }

  // ---------------------------------------------------------------------
  // Steps on the task in hand
  // ---------------------------------------------------------------------

  lemma AdvancedCost(r: TaskRec, pc: Pc)
    requires pc.Advance? && CursorInv(r)
    ensures var (r', pc') := Advanced(r, pc);
            match pc'
            case ReadHead(_, _, _, _) => Left(r') + 1 == Left(r)
            case Advance(_, _, again) => (Left(r') + 1 == Left(r) && again == pc.again) || (r' == r && again && !pc.again)
            case Schedule(_, _) => r' == r
            case _ => false
  {
  }

  lemma HoldCosts(s: State, th: Thread, t: TaskId, r: TaskRec, pc: Pc, k: Then)
    requires HasThen(pc) && pc.t == t && ThenInv(s, th, k) && t in s.place && s.place[t] == Held(th)
    ensures ThenCost(Hold(s, th, r, pc), k) == ThenCost(s, k)
    ensures TaskCost(Hold(s, th, r, pc), t) == 10 * Left(r) + 10
  {
    HeldIsNotAhead(s, th, k, t);
    ThenCostSame(s, Hold(s, th, r, pc), k);
  }

  lemma AdvanceSinks(s: State, th: Thread)
    requires Enabled(s, Run(th)) && s.threads[th].Advance?
    requires PcInv(s, th, s.threads[th]) && CursorInv(s.tasks[s.threads[th].t])
    ensures var s' := RunThread(s, th);
            th in s'.threads && Rank(s', s'.threads[th]) < Rank(s, s.threads[th])
  {
    var pc := s.threads[th];
    AdvancedCost(s.tasks[pc.t], pc);
    var (r', pc') := Advanced(s.tasks[pc.t], pc);
    HoldCosts(s, th, pc.t, r', pc', pc.then_);
  }

  lemma RegisterSinks(s: State, th: Thread)
    requires Enabled(s, Run(th)) && (s.threads[th].ReadHead? || s.threads[th].SetNext?)
    requires PcInv(s, th, s.threads[th])
    ensures var s' := RunThread(s, th);
            th in s'.threads && Rank(s', s'.threads[th]) < Rank(s, s.threads[th])
  {
    var s', pc := RunThread(s, th), s.threads[th];
    HoldCosts(s, th, pc.t, s'.tasks[pc.t], s'.threads[th], pc.then_);
  }

  lemma SwapSinks(s: State, th: Thread)
    requires Enabled(s, Run(th)) && s.threads[th].CasHead? && PcInv(s, th, s.threads[th])
    ensures var s' := RunThread(s, th);
            th in s'.threads && Rank(s', s'.threads[th]) < Rank(s, s.threads[th])
  {
    var s', pc := RunThread(s, th), s.threads[th];
    if s.promises[pc.p].head != pc.cur {
      HoldCosts(s, th, pc.t, s.tasks[pc.t], s'.threads[th], pc.then_);
    } else {
      ThenCostSame(s, s', pc.then_);
    }
  }

  lemma ScheduleSinks(s: State, th: Thread)
    requires Enabled(s, Run(th)) && s.threads[th].Schedule?
    ensures var s' := RunThread(s, th);
            th in s'.threads && Rank(s', s'.threads[th]) < Rank(s, s.threads[th])
  {
    ThenCostSame(s, RunThread(s, th), s.threads[th].then_);
  }

  // ---------------------------------------------------------------------
  // Steps of a put
  // ---------------------------------------------------------------------

  lemma PutSinks(s: State, th: Thread)
    requires Enabled(s, Run(th))
    requires s.threads[th].PutRead? || s.threads[th].PutDatum? || s.threads[th].PutReread?
    ensures var s' := RunThread(s, th);
            th in s'.threads && Rank(s', s'.threads[th]) < Rank(s, s.threads[th])
  {
    var s', p := RunThread(s, th), s.threads[th].p;
    WalkCostSame(s, s', List(s, p));
  }

  lemma CloseSinks(s: State, th: Thread)
    requires Enabled(s, Run(th)) && s.threads[th].PutCas?
    ensures var s' := RunThread(s, th);
            th in s'.threads && Rank(s', s'.threads[th]) < Rank(s, s.threads[th])
  {
    var s', p := RunThread(s, th), s.threads[th].p;
    WalkCostSame(s, s', List(s, p));
  }

  lemma WalkSinks(s: State, th: Thread)
    requires Enabled(s, Run(th)) && s.threads[th].Walk? && PcInv(s, th, s.threads[th])
    ensures var s' := RunThread(s, th);
            th in s'.threads && Rank(s', s'.threads[th]) < Rank(s, s.threads[th])
  {
    var s', pc := RunThread(s, th), s.threads[th];
    if pc.curr.Ref? {
      assert pc.curr == Ref(pc.rest[0]);
      WalkCostSame(s, s', pc.rest[1..]);
    }
  }

  /**
    Each step of a call brings it nearer to its end, unless another thread has changed
    a head that it had read: a thread that runs alone returns.
   */
  lemma StepsSink(s: State, th: Thread)
    requires Inv(s) && Enabled(s, Run(th))
    ensures var s' := Step(s, Run(th));
            th in s'.threads && Rank(s', s'.threads[th]) < Rank(s, s.threads[th])
  {
    assert PcInv(s, th, s.threads[th]);
    match s.threads[th] {
      case Advance(t, _, _) =>
        assert TaskInv(s, t);
        AdvanceSinks(s, th);
      case ReadHead(_, _, _, _) => RegisterSinks(s, th);
      case SetNext(_, _, _, _, _) => RegisterSinks(s, th);
      case CasHead(_, _, _, _, _) => SwapSinks(s, th);
      case Schedule(_, _) => ScheduleSinks(s, th);
      case PutCas(_, _) => CloseSinks(s, th);
      case Walk(_, _, _) => WalkSinks(s, th);
      case _ => PutSinks(s, th);
    }
  }

  /** The state after one more step of `th`, if its call has not ended. */
  function Next(s: State, th: Thread): State {
    if Enabled(s, Run(th)) then Step(s, Run(th)) else s
  }

  /** The state after `n` steps of `th` alone, or fewer if its call ends before. */
  function Alone(s: State, th: Thread, n: nat): State {
    if n == 0 then s else Next(Alone(s, th, n - 1), th)
  }

  lemma NeverStuck(s: State, th: Thread)
    requires Inv(s) && th in s.threads && s.threads[th] != Idle
    ensures Enabled(s, Run(th))
  {
    assert PcInv(s, th, s.threads[th]);
    if !HasThen(s.threads[th]) {
      assert PromiseInv(s, s.threads[th].p);
    }
  }

  /** The call has ended, or `n` steps have brought it as much nearer to its end. */
  predicate Sunk(m: State, th: Thread, n: nat, rank: nat) {
    th in m.threads && (m.threads[th] == Idle || Rank(m, m.threads[th]) + n <= rank)
  }

  lemma NextSinks(m: State, th: Thread, n: nat, rank: nat)
    requires Inv(m) && Sunk(m, th, n, rank)
    ensures Inv(Next(m, th)) && Sunk(Next(m, th), th, n + 1, rank)
  {
    if m.threads[th] != Idle {
      NeverStuck(m, th);
      InvStep(m, Run(th));
      StepsSink(m, th);
    }
  }

  lemma AloneSinks(s: State, th: Thread, n: nat)
    requires Inv(s) && th in s.threads
    ensures Sunk(Alone(s, th, n), th, n, Rank(s, s.threads[th]))
  {
    var m := s;
    for k := 0 to n
      invariant m == Alone(s, th, k) && Inv(m) && Sunk(m, th, k, Rank(s, s.threads[th]))
    {
      NextSinks(m, th, k, Rank(s, s.threads[th]));
      m := Next(m, th);
    }
  }

  lemma SunkToTheEnd(m: State, th: Thread, rank: nat)
    requires Sunk(m, th, rank, rank)
    ensures m.threads[th] == Idle
  {
    if m.threads[th] != Idle {
      RankIsPositive(m, m.threads[th]);
    }
  }

  lemma RankIsPositive(s: State, pc: Pc)
    requires pc != Idle
    ensures Rank(s, pc) > 0
  {
    match pc {
      case Walk(_, _, rest) => WalkCostIsPositive(s, rest);
      case _ =>
    }
  }

  lemma WalkCostIsPositive(s: State, rest: seq<TaskId>)
    ensures WalkCost(s, rest) > 0
  {
  }

  /** From every reachable state a thread that runs alone finishes its call, in at most Rank steps. */
  lemma RunsAloneToTheEnd(states: seq<State>, actions: seq<Action>, i: nat, th: Thread)
    requires IsRun(states, actions) && i < |states| && th in states[i].threads
    ensures var m := Alone(states[i], th, Rank(states[i], states[i].threads[th]));
            th in m.threads && m.threads[th] == Idle
  {
    RunsKeepInv(states, actions, i);
    var rank := Rank(states[i], states[i].threads[th]);
    AloneSinks(states[i], th, rank);
    SunkToTheEnd(Alone(states[i], th, rank), th, rank);
  }
}
