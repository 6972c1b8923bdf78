/**
  What callers of append and the completion callback get: the operations on the list
  are those appended, an operation is released only after the callback has said that
  it is complete, and one said to be complete is unlinked before the poller goes on.
 */
module PendingCalls {
  import opened Common
  import opened PendingList

  // ---------------------------------------------------------------------
  // Appends
  // ---------------------------------------------------------------------

  /** At step `k` thread `th` calls append for `op`. */
  predicate AppendsAt(actions: seq<Action>, k: nat, th: Thread, op: Op) {
    k < |actions| && actions[k] == CallAppend(th, op)
  }

  predicate AppendCalled(actions: seq<Action>, n: nat, op: Op) {
    exists k :: 0 <= k < n && k < |actions| && actions[k].CallAppend? && actions[k].op == op
  }

  predicate Appending(pc: Pc, op: Op) {
    pc == AppendRead(op) || pc == AppendCas(op)
  }

  /** Operations come from calls of append; their owner, as long as they have one, stays the same. */
  predicate StatusKept(s: State, s': State, op: Op) {
    && (op in s'.status <==> op in s.status)
    && (op in s.status ==>
          && (s'.status[op].Mine? ==> s'.status[op] == s.status[op])
          && (s.status[op].Released? ==> s'.status[op].Released?))
  }

  lemma AppendKeepsStatus(s: State, th: Thread, done: bool, op: Op)
    requires Inv(s) && Enabled(s, Run(th, done)) && !Polls(s.threads[th]) && !s.threads[th].Release?
    ensures StatusKept(s, RunThread(s, th, done), op)
  {
    assert PcInv(s, th, s.threads[th]);
  }

  lemma MoveKeepsStatus(s: State, th: Thread, done: bool, op: Op)
    requires Enabled(s, Run(th, done))
    requires var pc := s.threads[th]; pc.PollHead? || pc.PollNext? || pc.PollTest?
    ensures StatusKept(s, RunThread(s, th, done), op)
  {
  }

  lemma RemovalKeepsStatus(s: State, th: Thread, done: bool, op: Op)
    requires Enabled(s, Run(th, done))
    requires var pc := s.threads[th]; (pc.PollCas? || pc.PollFix? || pc.PollUnlink?) && pc.op in s.status && s.status[pc.op] == Listed
    ensures StatusKept(s, RunThread(s, th, done), op)
  {
  }

  lemma ReleaseKeepsStatus(s: State, th: Thread, done: bool, op: Op)
    requires Enabled(s, Run(th, done)) && s.threads[th].Release? && s.threads[th].op in s.status
    ensures StatusKept(s, RunThread(s, th, done), op)
  {
  }

  lemma PolledIsListed(s: State, th: Thread)
    requires Inv(s) && th in s.threads
    requires var pc := s.threads[th]; pc.PollCas? || pc.PollFix? || pc.PollUnlink?
    ensures s.threads[th].op in s.status && s.status[s.threads[th].op] == Listed
  {
    var pc := s.threads[th];
    assert PcInv(s, th, pc);
    assert s.list[|s.list| - pc.rest] == pc.op;
  }

  lemma PollKeepsStatus(s: State, th: Thread, done: bool, op: Op)
    requires Inv(s) && Enabled(s, Run(th, done)) && (Polls(s.threads[th]) || s.threads[th].Release?)
    ensures StatusKept(s, RunThread(s, th, done), op)
  {
    var pc := s.threads[th];
    if pc.PollHead? || pc.PollNext? || pc.PollTest? {
      MoveKeepsStatus(s, th, done, op);
    } else if pc.Release? {
      assert PcInv(s, th, pc);
      ReleaseKeepsStatus(s, th, done, op);
    } else {
      PolledIsListed(s, th);
      RemovalKeepsStatus(s, th, done, op);
    }
  }

  lemma StatusStep(s: State, a: Action, op: Op)
    requires Inv(s) && Enabled(s, a)
    ensures var s' := Step(s, a);
            if a.CallAppend? && a.op == op then op in s'.status && s'.status[op] == Mine(a.th)
            else StatusKept(s, s', op)
  {
    if a.Run? {
      if Polls(s.threads[a.th]) || s.threads[a.th].Release? {
        PollKeepsStatus(s, a.th, a.done, op);
      } else {
        AppendKeepsStatus(s, a.th, a.done, op);
      }
    }
  }

  lemma {:induction false} OperationsAreThoseAppended(states: seq<State>, actions: seq<Action>, i: nat, op: Op)
    requires IsRun(states, actions) && i < |states|
    ensures op in states[i].status <==> AppendCalled(actions, i, op)
    decreases i
  {
    if i > 0 {
      OperationsAreThoseAppended(states, actions, i - 1, op);
      assert StepAt(states, actions, i - 1);
      RunsKeepInv(states, actions, i - 1);
      StatusStep(states[i - 1], actions[i - 1], op);
      if AppendCalled(actions, i, op) && !AppendCalled(actions, i - 1, op) {
        var k :| 0 <= k < i && k < |actions| && actions[k].CallAppend? && actions[k].op == op;
        assert k == i - 1;
      }
    }
  }

  lemma {:induction false} OwnerIsTheCaller(states: seq<State>, actions: seq<Action>, k: nat, i: nat, th: Thread, op: Op)
    requires IsRun(states, actions) && AppendsAt(actions, k, th, op) && k < i < |states|
    ensures op in states[i].status && (states[i].status[op].Mine? ==> states[i].status[op] == Mine(th))
    decreases i
  {
    assert StepAt(states, actions, i - 1);
    RunsKeepInv(states, actions, i - 1);
    StatusStep(states[i - 1], actions[i - 1], op);
    if i > k + 1 {
      OwnerIsTheCaller(states, actions, k, i - 1, th, op);
    }
  }

  /**
    Every operation for which append was called is reachable from the head, unlinked
    and about to be released, or released, once, as soon as its caller is past the
    swap; before, it is with its caller.
   */
  lemma AppendedOperationsAreConserved(states: seq<State>, actions: seq<Action>, k: nat, i: nat, th: Thread, op: Op)
    requires IsRun(states, actions) && AppendsAt(actions, k, th, op) && k < i < |states|
    ensures var s := states[i];
            && Chain(s.head, s.next, s.list) && NoDup(s.released) && op in s.status
            && (op in s.list <==> s.status[op] == Listed)
            && (op in s.released <==> s.status[op] == Released)
            && ((exists u <- s.threads :: s.threads[u].Release? && s.threads[u].op == op) <==> s.status[op].Taken?)
            && (th in s.threads && Appending(s.threads[th], op) <==> s.status[op].Mine?)
  {
    OwnerIsTheCaller(states, actions, k, i, th, op);
    OperationsAreConserved(states, actions, i, op);
    RunsKeepInv(states, actions, i);
    if states[i].status[op].Mine? {
      OwnerAppends(states[i], op);
    }
  }

  lemma OwnerAppends(s: State, op: Op)
    requires StatusesInv(s) && op in s.status && s.status[op].Mine?
    ensures s.status[op].th in s.threads && Appending(s.threads[s.status[op].th], op)
  {
    assert StatusInv(s, op);
  }

  // ---------------------------------------------------------------------
  // The answers of the callback
  // ---------------------------------------------------------------------

  /** At step `k` a poller asks for `op` and is told that it is complete. */
  predicate SaidComplete(states: seq<State>, actions: seq<Action>, k: nat, op: Op)
    requires |states| == |actions| + 1
  {
    && k < |actions| && actions[k].Run? && actions[k].done
    && actions[k].th in states[k].threads
    && states[k].threads[actions[k].th].PollTest? && states[k].threads[actions[k].th].op == op
  }

  predicate WasComplete(states: seq<State>, actions: seq<Action>, n: nat, op: Op)
    requires |states| == |actions| + 1
  {
    exists k :: 0 <= k < n && SaidComplete(states, actions, k, op)
  }

  /** The poller is about to unlink `op`. */
  predicate Removing(pc: Pc, op: Op) {
    match pc
    case PollCas(o, _, _) => o == op
    case PollFix(_, o, _, _) => o == op
    case PollUnlink(_, o, _, _) => o == op
    case _ => false
  }

  predicate Gone(s: State, op: Op) {
    op in s.status && (s.status[op].Taken? || s.status[op].Released?)
  }

  /** Nobody else moves a thread. */
  predicate OthersKept(s: State, s': State, th: Thread) {
    s'.threads.Keys == s.threads.Keys && forall u <- s.threads :: u != th ==> s'.threads[u] == s.threads[u]
  }

  lemma AppendKeepsOthers(s: State, th: Thread, done: bool)
    requires Enabled(s, Run(th, done)) && !Polls(s.threads[th])
    ensures var s' := RunThread(s, th, done); OthersKept(s, s', th) && !Removes(s'.threads[th])
  {
  }

  lemma PollKeepsOthers(s: State, th: Thread, done: bool)
    requires Enabled(s, Run(th, done)) && Polls(s.threads[th])
    ensures OthersKept(s, RunThread(s, th, done), th)
  {
  }

  predicate Removes(pc: Pc) {
    pc.PollCas? || pc.PollFix? || pc.PollUnlink?
  }

  lemma PollRemoves(s: State, th: Thread, done: bool, op: Op)
    requires Enabled(s, Run(th, done)) && Polls(s.threads[th])
    requires th in RunThread(s, th, done).threads && Removing(RunThread(s, th, done).threads[th], op)
    ensures || Removing(s.threads[th], op)
            || (done && s.threads[th].PollTest? && s.threads[th].op == op)
  {
  }

  lemma RemovalComesFrom(s: State, a: Action, op: Op, u: Thread)
    requires Enabled(s, a) && u in Step(s, a).threads && Removing(Step(s, a).threads[u], op)
    ensures u in s.threads
    ensures || Removing(s.threads[u], op)
            || (a == Run(u, true) && s.threads[u].PollTest? && s.threads[u].op == op)
  {
    if a.Run? {
      if Polls(s.threads[a.th]) {
        PollKeepsOthers(s, a.th, a.done);
        if a.th == u {
          PollRemoves(s, u, a.done, op);
        }
      } else {
        AppendKeepsOthers(s, a.th, a.done);
      }
    }
  }

  lemma GoneComesFrom(s: State, a: Action, op: Op)
    requires Inv(s) && Enabled(s, a) && Gone(Step(s, a), op)
    ensures Gone(s, op) || (a.Run? && Removing(s.threads[a.th], op))
  {
    if a.Run? {
      var pc := s.threads[a.th];
      assert PcInv(s, a.th, pc);
    }
  }

  lemma {:induction false} RemovedWasComplete(states: seq<State>, actions: seq<Action>, i: nat, op: Op)
    requires IsRun(states, actions) && i < |states|
    ensures Gone(states[i], op) ==> WasComplete(states, actions, i, op)
    ensures forall u <- states[i].threads :: Removing(states[i].threads[u], op) ==> WasComplete(states, actions, i, op)
    decreases i
  {
    if i > 0 {
      var s, a := states[i - 1], actions[i - 1];
      RemovedWasComplete(states, actions, i - 1, op);
      assert StepAt(states, actions, i - 1);
      RunsKeepInv(states, actions, i - 1);
      if Gone(states[i], op) {
        GoneComesFrom(s, a, op);
      }
      forall u <- states[i].threads | Removing(states[i].threads[u], op)
        ensures WasComplete(states, actions, i, op)
      {
        RemovalComesFrom(s, a, op, u);
        if !Removing(s.threads[u], op) {
          assert SaidComplete(states, actions, i - 1, op);
        }
      }
    }
  }

  /** An operation is released only after the callback has said that it is complete. */
  lemma ReleasedWasComplete(states: seq<State>, actions: seq<Action>, i: nat, op: Op)
    requires IsRun(states, actions) && i < |states| && op in states[i].released
    ensures WasComplete(states, actions, i, op)
  {
    RunsKeepInv(states, actions, i);
    ReleasedIsGone(states[i], op);
    RemovedWasComplete(states, actions, i, op);
  }

  lemma ReleasedIsGone(s: State, op: Op)
    requires StatusesInv(s) && op in s.released
    ensures Gone(s, op)
  {
    var n :| 0 <= n < |s.released| && s.released[n] == op;
    assert s.status[s.released[n]] == Released;
  }

  /** An operation said to be incomplete stays on the list, and the poller goes on to the next, or to a new round. */
  lemma IncompleteIsKept(states: seq<State>, actions: seq<Action>, i: nat, th: Thread)
    requires IsRun(states, actions) && i < |actions| && actions[i] == Run(th, false)
    requires th in states[i].threads && states[i].threads[th].PollTest?
    ensures var s, s', pc := states[i], states[i + 1], states[i].threads[th];
            && s'.list == s.list && pc.op in s'.list && s'.status == s.status && s'.released == s.released
            && th in s'.threads && pc.rest >= 1
            && s'.threads[th] == (if pc.next.Some? then PollNext(Some(pc.op), pc.next.value, pc.rest - 1) else PollHead)
            && pc.next == Link(s.list, |s.list| - pc.rest + 1)
  {
    assert StepAt(states, actions, i);
    RunsKeepInv(states, actions, i);
    IncompleteStep(states[i], th);
  }

  lemma IncompleteStep(s: State, th: Thread)
    requires Inv(s) && Enabled(s, Run(th, false)) && s.threads[th].PollTest?
    ensures var s', pc := Step(s, Run(th, false)), s.threads[th];
            && s'.list == s.list && pc.op in s'.list && s'.status == s.status && s'.released == s.released
            && pc.rest >= 1
            && s'.threads[th] == (if pc.next.Some? then PollNext(Some(pc.op), pc.next.value, pc.rest - 1) else PollHead)
            && pc.next == Link(s.list, |s.list| - pc.rest + 1)
  {
    assert PcInv(s, th, s.threads[th]);
    assert s.list[|s.list| - s.threads[th].rest] == s.threads[th].op;
  }

  lemma OtherKeepsRemoving(s: State, a: Action, th: Thread, op: Op)
    requires Enabled(s, a) && th in s.threads && Removing(s.threads[th], op) && a.th != th
    ensures th in Step(s, a).threads && Removing(Step(s, a).threads[th], op)
    ensures Step(s, a).aborted.Some? ==> a.Run? && Polls(s.threads[a.th])
  {
  }

  lemma RemovingStep(s: State, a: Action, th: Thread, op: Op)
    requires Inv(s) && Enabled(s, a) && th in s.threads && Removing(s.threads[th], op)
    ensures var s' := Step(s, a);
            && th in s'.threads
            && (s'.aborted.Some? ==> s'.aborted == Some(45))
            && (|| Removing(s'.threads[th], op)
                || (&& s'.threads[th].Release? && s'.threads[th].op == op
                    && op in s'.status && s'.status[op] == Taken(th) && op !in s'.list))
  {
    InvStep(s, a);
    if a.th != th {
      OtherKeepsRemoving(s, a, th, op);
    } else {
      OwnRemovingStep(s, a.done, th, op);
      if s.threads[th] != Step(s, a).threads[th] && !Removing(Step(s, a).threads[th], op) {
        TakenIsOffTheList(Step(s, a), op);
      }
    }
  }

  lemma OwnRemovingStep(s: State, done: bool, th: Thread, op: Op)
    requires Enabled(s, Run(th, done)) && Removing(s.threads[th], op)
    ensures var s' := Step(s, Run(th, done));
            && th in s'.threads
            && (|| Removing(s'.threads[th], op)
                || (&& s'.threads[th].Release? && s'.threads[th].op == op
                    && op in s'.status && s'.status[op] == Taken(th)))
  {
  }

  lemma TakenIsOffTheList(s: State, op: Op)
    requires StatusesInv(s) && op in s.status && s.status[op].Taken?
    ensures op !in s.list
  {
  }

  /**
    An operation said to be complete is unlinked before the poller goes on: in every
    later state the poller is still about to unlink it, unless it has done so, and is
    then about to release it.  The one other way out is the assertion on line 45.
   */
  lemma CompleteIsUnlinked(states: seq<State>, actions: seq<Action>, i: nat, j: nat, th: Thread, op: Op)
    requires IsRun(states, actions) && i < j < |states|
    requires SaidComplete(states, actions, i, op) && actions[i].th == th
    requires forall m :: i < m < j ==> th in states[m].threads && Removing(states[m].threads[th], op)
    ensures th in states[j].threads
    ensures states[j].aborted.Some? ==> states[j].aborted == Some(45)
    ensures || Removing(states[j].threads[th], op)
            || (&& states[j].threads[th].Release? && states[j].threads[th].op == op
                && op in states[j].status && states[j].status[op] == Taken(th) && op !in states[j].list)
  {
    RunsKeepInv(states, actions, j - 1);
    assert StepAt(states, actions, j - 1);
    if j == i + 1 {
      CompleteStep(states[i], th);
    } else {
      RemovingStep(states[j - 1], actions[j - 1], th, op);
    }
  }

  lemma CompleteStep(s: State, th: Thread)
    requires Enabled(s, Run(th, true)) && s.threads[th].PollTest?
    ensures th in Step(s, Run(th, true)).threads && Removing(Step(s, Run(th, true)).threads[th], s.threads[th].op)
    ensures Step(s, Run(th, true)).aborted == None
  {
  }

  /** What has been unlinked is released by the poller's next step. */
  lemma UnlinkedIsReleased(s: State, th: Thread, done: bool)
    requires Enabled(s, Run(th, done)) && s.threads[th].Release?
    ensures Step(s, Run(th, done)).released == s.released + [s.threads[th].op]
  {
  }

  // ---------------------------------------------------------------------
  // Every append and every round of a poller ends
  // ---------------------------------------------------------------------

  /** A bound on the steps of an append, or of a poller's round, as long as no other thread moves the head. */
  function Rank(s: State, pc: Pc): nat {
    match pc
    case Idle => 0
    case AppendRead(_) => 4
    case AppendCas(op) => if op in s.next && s.head == s.next[op] then 2 else 3
    case SpawnPoller => 1
    case PollHead => 0
    case PollNext(_, _, rest) => 6 * rest + 5
    case PollTest(_, _, _, rest) => 6 * rest + 4
    case PollCas(_, _, rest) => 6 * rest + 3
    case PollFix(_, _, _, rest) => 6 * rest + 2
    case PollUnlink(_, _, _, rest) => 6 * rest + 2
    case Release(_, _, _, _, rest) => 6 * rest + 7
  }

  lemma StepsSink(s: State, th: Thread, done: bool)
    requires Inv(s) && Enabled(s, Run(th, done)) && !s.threads[th].PollHead?
    ensures var s' := Step(s, Run(th, done));
            && th in s'.threads
            && (s'.aborted.Some? || Rank(s', s'.threads[th]) < Rank(s, s.threads[th]))
  {
    assert PcInv(s, th, s.threads[th]);
  }
}
