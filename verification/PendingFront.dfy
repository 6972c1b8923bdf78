/**
  When the assertion on line 45 of modules/common/hclib-module-common.h fails, in
  terms of what threads did: how many operations were appended between the moment
  the poller's operation was last at the front and the poller's failed swap.
 */
module PendingFront {
  import opened Common
  import opened PendingList

  /** The step of a thread whose compare-and-swap in append succeeds. */
  predicate Appends(s: State, a: Action) {
    && a.Run? && a.th in s.threads && s.threads[a.th].AppendCas?
    && s.threads[a.th].op in s.next && s.head == s.next[s.threads[a.th].op]
  }

  /** The successful appends among the steps from `m` up to `n`. */
  ghost function AppendsBetween(states: seq<State>, actions: seq<Action>, m: nat, n: nat): nat
    requires m <= n <= |actions| && n <= |states|
    decreases n - m
  {
    if m == n then 0
    else AppendsBetween(states, actions, m, n - 1) + if Appends(states[n - 1], actions[n - 1]) then 1 else 0
  }

  /** `list` is `was` with one operation in front if `a` appends, and `was` itself otherwise. */
  predicate Grows(was: seq<Op>, list: seq<Op>, appends: bool) {
    if appends then list != [] && list[1..] == was else list == was
  }

  /** While a thread polls, the others leave it where it is and touch the list only by appending. */
  lemma OthersOnlyAppend(s: State, a: Action, th: Thread)
    requires Inv(s) && Enabled(s, a) && th in s.threads && Polls(s.threads[th]) && a.th != th
    ensures th in Step(s, a).threads && Step(s, a).threads[th] == s.threads[th]
    ensures Grows(s.list, Step(s, a).list, Appends(s, a))
  {
    assert PcInv(s, th, s.threads[th]);
    assert PcInv(s, a.th, s.threads[a.th]);
  }

  /** The poller is at `op`, which was the front of the list when the poller came to it. */
  predicate CameToFront(pc: Pc, op: Op) {
    match pc
    case PollNext(prev, o, _) => prev == None && o == op
    case PollTest(prev, o, _, _) => prev == None && o == op
    case PollCas(o, _, _) => o == op
    case Release(prev, _, next, more, _) => prev == None && next == Some(op) && more
    case _ => false
  }

  /** Backwards from a state in which others are in front of the poller's operation: only appends. */
  lemma CameFromFront(s: State, a: Action, th: Thread, op: Op)
    requires Inv(s) && Enabled(s, a)
    requires th in Step(s, a).threads && CameToFront(Step(s, a).threads[th], op) && Step(s, a).head != Some(op)
    ensures th in s.threads && CameToFront(s.threads[th], op)
    ensures Grows(s.list, Step(s, a).list, Appends(s, a))
  {
    if a.th != th {
      OtherKeepsPc(s, a, th);
      OthersOnlyAppend(s, a, th);
    } else {
      assert PcInv(s, th, s.threads[th]);
      OwnStepAtFront(s, a, op);
    }
  }

  /** A step of one thread is a change of the shared state and of that thread's program counter. */
  predicate OthersKept(s: State, s': State, th: Thread) {
    s'.threads.Keys == s.threads.Keys && forall u <- s.threads :: u != th ==> s'.threads[u] == s.threads[u]
  }

  lemma AppendKeepsOthers(s: State, th: Thread, done: bool)
    requires Enabled(s, Run(th, done)) && !Polls(s.threads[th])
    ensures OthersKept(s, RunThread(s, th, done), th)
  {
  }

  lemma PollKeepsOthers(s: State, th: Thread, done: bool)
    requires Enabled(s, Run(th, done)) && Polls(s.threads[th])
    ensures OthersKept(s, RunThread(s, th, done), th)
  {
  }

  lemma OtherKeepsPc(s: State, a: Action, th: Thread)
    requires Enabled(s, a) && th in Step(s, a).threads && a.th != th
    ensures th in s.threads && Step(s, a).threads[th] == s.threads[th]
  {
    if a.Run? {
      if Polls(s.threads[a.th]) {
        PollKeepsOthers(s, a.th, a.done);
      } else {
        AppendKeepsOthers(s, a.th, a.done);
      }
    }
  }

  lemma OwnStepAtFront(s: State, a: Action, op: Op)
    requires Enabled(s, a) && a.th in s.threads
    requires s.threads[a.th].Release? && !s.threads[a.th].more ==> s.threads[a.th].next == None
    requires a.th in Step(s, a).threads && CameToFront(Step(s, a).threads[a.th], op) && Step(s, a).head != Some(op)
    ensures CameToFront(s.threads[a.th], op) && Step(s, a).list == s.list && !Appends(s, a)
  {
  }

  /** Since `m` the operation at the front then has been overtaken, by exactly what was appended. */
  predicate LastAtFront(states: seq<State>, actions: seq<Action>, m: nat, n: nat, op: Op)
    requires m <= n <= |actions| && n < |states|
  {
    && states[m].head == Some(op)
    && (forall k :: m < k <= n ==> states[k].head != Some(op))
  }

  /** The operations of `tail` are the last ones of `list`. */
  predicate EndsWith(list: seq<Op>, tail: seq<Op>) {
    |tail| <= |list| && list[|list| - |tail|..] == tail
  }

  /** One step backwards from state `n`, if the poller's operation has been overtaken there. */
  predicate StepsBack(states: seq<State>, actions: seq<Action>, n: nat, th: Thread, op: Op)
    requires n < |states| == |actions| + 1
  {
    th in states[n].threads && CameToFront(states[n].threads[th], op) && states[n].head != Some(op) ==>
      && n > 0
      && th in states[n - 1].threads && CameToFront(states[n - 1].threads[th], op)
      && Grows(states[n - 1].list, states[n].list, Appends(states[n - 1], actions[n - 1]))
  }

  lemma RunStepsBack(states: seq<State>, actions: seq<Action>, n: nat, th: Thread, op: Op)
    requires IsRun(states, actions) && n < |states|
    ensures StepsBack(states, actions, n, th, op)
  {
    if n > 0 && th in states[n].threads && CameToFront(states[n].threads[th], op) && states[n].head != Some(op) {
      RunsKeepInv(states, actions, n - 1);
      assert StepAt(states, actions, n - 1);
      CameFromFront(states[n - 1], actions[n - 1], th, op);
    } else if n == 0 && th in states[0].threads {
      assert states[0].threads[th] == Idle;
    }
  }

  /**
    The poller's operation has been at the front; what is in front of it since it
    last was are the operations appended since.
   */
  lemma {:induction false} OvertakenByAppends(states: seq<State>, actions: seq<Action>, n: nat, th: Thread, op: Op)
      returns (m: nat)
    requires n < |states| == |actions| + 1 && forall k :: 0 <= k <= n ==> StepsBack(states, actions, k, th, op)
    requires th in states[n].threads && CameToFront(states[n].threads[th], op)
    ensures m <= n && LastAtFront(states, actions, m, n, op)
    ensures EndsWith(states[n].list, states[m].list)
    ensures |states[n].list| == |states[m].list| + AppendsBetween(states, actions, m, n)
    decreases n
  {
    if states[n].head == Some(op) {
      m := n;
    } else {
      assert StepsBack(states, actions, n, th, op);
      m := OvertakenByAppends(states, actions, n - 1, th, op);
      GrowsEndsWith(states[n - 1].list, states[n].list, Appends(states[n - 1], actions[n - 1]), states[m].list);
    }
  }

  lemma GrowsEndsWith(was: seq<Op>, list: seq<Op>, appends: bool, tail: seq<Op>)
    requires Grows(was, list, appends) && EndsWith(was, tail)
    ensures EndsWith(list, tail) && |list| == |was| + if appends then 1 else 0
  {
    if appends {
      assert list == [list[0]] + was;
    }
  }

  /** A poller whose compare-and-swap at step `i` fails, and which goes on at step `j`. */
  predicate FailedSwap(states: seq<State>, actions: seq<Action>, i: nat, j: nat, th: Thread)
    requires |states| == |actions| + 1
  {
    && i < j < |actions|
    && actions[i].Run? && actions[i].th == th && th in states[i].threads && states[i].threads[th].PollCas?
    && states[i].head != Some(states[i].threads[th].op)
    && actions[j].Run? && actions[j].th == th
    && (forall k :: i < k < j ==> actions[k].th != th)
  }

  /** The front seen by the failed swap is directly before the operation exactly if it is the only one in front. */
  lemma FrontAtTheSwap(s: State, th: Thread, done: bool)
    requires Inv(s) && Enabled(s, Run(th, done)) && s.threads[th].PollCas?
    requires s.head != Some(s.threads[th].op)
    ensures var pc := s.threads[th];
            && s.head.Some? && 1 <= pc.rest < |s.list|
            && Step(s, Run(th, done)).threads[th] == PollFix(s.head.value, pc.op, pc.next, pc.rest)
            && Step(s, Run(th, done)).list == s.list
            && (At(s.list, s.head, pc.op, pc.rest) <==> |s.list| - pc.rest == 1)
  {
    assert PcInv(s, th, s.threads[th]);
  }

  /** Operations added in front do not come between two neighbours. */
  lemma GrowsKeepsNeighbours(was: seq<Op>, list: seq<Op>, appends: bool, prev: Ptr, op: Op, rest: nat)
    requires Grows(was, list, appends) && 1 <= rest <= |was| && prev.Some?
    requires rest < |was|
    ensures At(list, prev, op, rest) <==> At(was, prev, op, rest)
  {
    if appends {
      assert list == [list[0]] + was;
    }
  }

  /** The poller at line 45, with the front it saw and its operation's neighbour as they were at the swap. */
  predicate WaitsAtFix(was: State, s: State, th: Thread)
    requires th in was.threads && was.threads[th].PollCas?
  {
    var pc := was.threads[th];
    && was.head.Some? && 1 <= pc.rest < |s.list|
    && th in s.threads && s.threads[th] == PollFix(was.head.value, pc.op, pc.next, pc.rest)
    && (At(s.list, was.head, pc.op, pc.rest) <==> |was.list| - pc.rest == 1)
  }

  lemma StartsWaiting(states: seq<State>, actions: seq<Action>, i: nat, j: nat, th: Thread)
    requires IsRun(states, actions) && FailedSwap(states, actions, i, j, th)
    ensures WaitsAtFix(states[i], states[i + 1], th)
    ensures |states[i].list| > states[i].threads[th].rest
  {
    RunsKeepInv(states, actions, i);
    assert StepAt(states, actions, i);
    FrontAtTheSwap(states[i], th, actions[i].done);
  }

  lemma GoesOnWaiting(was: State, s: State, a: Action, th: Thread)
    requires th in was.threads && was.threads[th].PollCas? && WaitsAtFix(was, s, th)
    requires Inv(s) && Enabled(s, a) && a.th != th
    ensures WaitsAtFix(was, Step(s, a), th)
  {
    OthersOnlyAppend(s, a, th);
    var pc := was.threads[th];
    GrowsKeepsNeighbours(s.list, Step(s, a).list, Appends(s, a), was.head, pc.op, pc.rest);
  }

  lemma RunGoesOnWaiting(states: seq<State>, actions: seq<Action>, i: nat, n: nat, th: Thread)
    requires IsRun(states, actions) && i < n < |actions| && actions[n].th != th
    requires th in states[i].threads && states[i].threads[th].PollCas? && WaitsAtFix(states[i], states[n], th)
    ensures WaitsAtFix(states[i], states[n + 1], th)
  {
    RunsKeepInv(states, actions, n);
    assert StepAt(states, actions, n);
    GoesOnWaiting(states[i], states[n], actions[n], th);
  }

  lemma WaitsUntil(states: seq<State>, actions: seq<Action>, i: nat, j: nat, th: Thread)
    requires IsRun(states, actions) && FailedSwap(states, actions, i, j, th)
    ensures WaitsAtFix(states[i], states[j], th)
  {
    StartsWaiting(states, actions, i, j, th);
    for n := i + 1 to j
      invariant WaitsAtFix(states[i], states[n], th)
    {
      RunGoesOnWaiting(states, actions, i, n, th);
    }
  }

  /**
    The assertion on line 45 fails if and only if, when the swap failed, at least two
    operations stood in front of the one being removed.
   */
  lemma FailsIffTwoInFront(states: seq<State>, actions: seq<Action>, i: nat, j: nat, th: Thread)
    requires IsRun(states, actions) && FailedSwap(states, actions, i, j, th)
    ensures states[j + 1].aborted == Some(45) <==> |states[i].list| - states[i].threads[th].rest >= 2
  {
    StartsWaiting(states, actions, i, j, th);
    WaitsUntil(states, actions, i, j, th);
    FrontAssertionFailsIffNotAdjacent(states, actions, j, th);
  }

  /** The number of operations behind and including the one that was at the front. */
  lemma RestAtFront(s: State, list: seq<Op>, op: Op, rest: nat)
    requires Inv(s) && s.head == Some(op) && EndsWith(list, s.list)
    requires At(list, None, op, rest) && NoDup(list)
    ensures rest == |s.list|
  {
    assert list[|list| - |s.list|] == list[|list| - |s.list|..][0] == op;
  }

  /**
    The assertion on line 45 fails if and only if two or more operations were appended
    between the state `m` in which the poller's operation was last at the front and
    the poller's failed swap.  With a single append in between it never fails.
   */
  lemma FailsIffTwoAppends(states: seq<State>, actions: seq<Action>, i: nat, j: nat, th: Thread) returns (m: nat)
    requires IsRun(states, actions) && FailedSwap(states, actions, i, j, th)
    ensures m < i && LastAtFront(states, actions, m, i, states[i].threads[th].op)
    ensures AppendsBetween(states, actions, m, i) >= 1
    ensures states[j + 1].aborted == Some(45) <==> AppendsBetween(states, actions, m, i) >= 2
  {
    var PollCas(op, next, rest) := states[i].threads[th];
    forall k | 0 <= k <= i
      ensures StepsBack(states, actions, k, th, op)
    {
      RunStepsBack(states, actions, k, th, op);
    }
    m := OvertakenByAppends(states, actions, i, th, op);
    RestWhenLastAtFront(states, actions, m, i, th);
    FailsIffTwoInFront(states, actions, i, j, th);
    StartsWaiting(states, actions, i, j, th);
  }

  lemma RestWhenLastAtFront(states: seq<State>, actions: seq<Action>, m: nat, i: nat, th: Thread)
    requires IsRun(states, actions) && m <= i < |states|
    requires th in states[i].threads && states[i].threads[th].PollCas?
    requires states[m].head == Some(states[i].threads[th].op) && EndsWith(states[i].list, states[m].list)
    ensures states[i].threads[th].rest == |states[m].list|
  {
    RunsKeepInv(states, actions, i);
    RunsKeepInv(states, actions, m);
    assert PcInv(states[i], th, states[i].threads[th]);
    RestAtFront(states[m], states[i].list, states[i].threads[th].op, states[i].threads[th].rest);
  }
}
