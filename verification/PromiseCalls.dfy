/**
  What callers of spawn and put get: the futures a task awaits are those given to
  the spawn, the puts are those that were called, and every call comes to an end.
 */
module PromiseCalls {
  import opened Common
  import opened PromiseWaitLists

  /** At step `k` some thread called spawn for `t` with the futures `fs`. */
  predicate SpawnsAt(actions: seq<Action>, k: nat, t: TaskId, fs: seq<Promise>) {
    k < |actions| && actions[k].CallSpawn? && actions[k].t == t && actions[k].futures == fs
  }

  /** Among the first `n` actions is a call of put for `p`. */
  predicate PutCalled(actions: seq<Action>, n: nat, p: Promise) {
    exists k :: 0 <= k < n && k < |actions| && actions[k].CallPut? && actions[k].p == p
  }

  // ---------------------------------------------------------------------
  // Tasks and puts come from calls
  // ---------------------------------------------------------------------

  /** The tasks that exist keep their futures, the puts are those called, and no task comes into being. */
  predicate SameCalls(s: State, s': State) {
    && s'.tasks.Keys == s.tasks.Keys
    && (forall t <- s.tasks :: s'.tasks[t].futures == s.tasks[t].futures)
    && s'.putter == s.putter
  }

  lemma AdvanceKeepsCalls(s: State, th: Thread)
    requires Enabled(s, Run(th)) && (s.threads[th].Advance? || s.threads[th].Schedule?)
    ensures SameCalls(s, RunThread(s, th))
  {
  }

  lemma RegisterKeepsCalls(s: State, th: Thread)
    requires Enabled(s, Run(th)) && (s.threads[th].ReadHead? || s.threads[th].SetNext? || s.threads[th].CasHead?)
    ensures SameCalls(s, RunThread(s, th))
  {
  }

  lemma PutKeepsCalls(s: State, th: Thread)
    requires Enabled(s, Run(th))
    requires s.threads[th].PutRead? || s.threads[th].PutDatum? || s.threads[th].PutReread? || s.threads[th].PutCas?
    ensures SameCalls(s, RunThread(s, th))
  {
  }

  lemma WalkKeepsCalls(s: State, th: Thread)
    requires Enabled(s, Run(th)) && s.threads[th].Walk?
    ensures SameCalls(s, RunThread(s, th))
  {
  }

  lemma RunKeepsCalls(s: State, th: Thread)
    requires Enabled(s, Run(th))
    ensures SameCalls(s, RunThread(s, th))
  {
    match s.threads[th] {
      case Advance(_, _, _) => AdvanceKeepsCalls(s, th);
      case Schedule(_, _) => AdvanceKeepsCalls(s, th);
      case ReadHead(_, _, _, _) => RegisterKeepsCalls(s, th);
      case SetNext(_, _, _, _, _) => RegisterKeepsCalls(s, th);
      case CasHead(_, _, _, _, _) => RegisterKeepsCalls(s, th);
      case Walk(_, _, _) => WalkKeepsCalls(s, th);
      case _ => PutKeepsCalls(s, th);
    }
  }

  /** A task comes into being by a spawn, with the futures of that spawn, and keeps them. */
  lemma FuturesStep(s: State, a: Action, t: TaskId)
    requires Enabled(s, a)
    ensures t in Step(s, a).tasks <==> t in s.tasks || (a.CallSpawn? && a.t == t)
    ensures t in Step(s, a).tasks ==>
              Step(s, a).tasks[t].futures == if t in s.tasks then s.tasks[t].futures else a.futures
  {
    if a.Run? {
      RunKeepsCalls(s, a.th);
    }
  }

  lemma PutterStep(s: State, a: Action, p: Promise)
    requires Enabled(s, a)
    ensures p in Step(s, a).putter <==> p in s.putter || (a.CallPut? && a.p == p)
    ensures p in Step(s, a).putter ==> Step(s, a).putter[p] == if p in s.putter then s.putter[p] else a.th
  {
    if a.Run? {
      RunKeepsCalls(s, a.th);
    }
  }

  /** What a spawn was given is what the task awaits, for ever after. */
  lemma {:induction false} FuturesAreThoseSpawned(states: seq<State>, actions: seq<Action>, k: nat, i: nat,
                                                  t: TaskId, fs: seq<Promise>)
    requires IsRun(states, actions) && SpawnsAt(actions, k, t, fs) && k < i < |states|
    ensures t in states[i].tasks && states[i].tasks[t].futures == fs
    decreases i
  {
    assert StepAt(states, actions, i - 1);
    FuturesStep(states[i - 1], actions[i - 1], t);
    if i > k + 1 {
      FuturesAreThoseSpawned(states, actions, k, i - 1, t, fs);
    }
  }

  /** Every task was spawned, by the one call that its futures come from. */
  lemma {:induction false} TasksAreSpawned(states: seq<State>, actions: seq<Action>, i: nat, t: TaskId) returns (k: nat)
    requires IsRun(states, actions) && i < |states| && t in states[i].tasks
    ensures k < i && SpawnsAt(actions, k, t, states[i].tasks[t].futures)
    decreases i
  {
    assert i > 0;
    assert StepAt(states, actions, i - 1);
    FuturesStep(states[i - 1], actions[i - 1], t);
    if t in states[i - 1].tasks {
      k := TasksAreSpawned(states, actions, i - 1, t);
    } else {
      k := i - 1;
    }
  }

  /** The puts on record are those that were called. */
  lemma {:induction false} PutsAreThoseCalled(states: seq<State>, actions: seq<Action>, i: nat, p: Promise)
    requires IsRun(states, actions) && i < |states|
    ensures p in states[i].putter <==> PutCalled(actions, i, p)
    decreases i
  {
    if i > 0 {
      PutsAreThoseCalled(states, actions, i - 1, p);
      assert StepAt(states, actions, i - 1);
      PutterStep(states[i - 1], actions[i - 1], p);
      if PutCalled(actions, i, p) && !PutCalled(actions, i - 1, p) {
        var k :| 0 <= k < i && k < |actions| && actions[k].CallPut? && actions[k].p == p;
        assert k == i - 1;
      }
    }
  }

  // ---------------------------------------------------------------------
  // The results for the futures of the spawn
  // ---------------------------------------------------------------------

  /**
    A task spawned with the futures `fs` is scheduled at most once, and only with each
    of them satisfied by a put that was called.
   */
  lemma ScheduledOnceAndReady(states: seq<State>, actions: seq<Action>, k: nat, i: nat, t: TaskId, fs: seq<Promise>)
    requires IsRun(states, actions) && SpawnsAt(actions, k, t, fs) && k < i < |states|
    ensures NoDup(states[i].scheduled)
    ensures t in states[i].scheduled ==>
              forall p <- fs :: && p in states[i].promises && states[i].promises[p].satisfied
                                && PutCalled(actions, i, p)
  {
    FuturesAreThoseSpawned(states, actions, k, i, t, fs);
    ScheduledAreReady(states, actions, i);
    if t in states[i].scheduled {
      forall p <- fs
        ensures PutCalled(actions, i, p)
      {
        SatisfiedByPut(states, actions, i, p);
        PutsAreThoseCalled(states, actions, i, p);
      }
    }
  }

  lemma SatisfiedByPut(states: seq<State>, actions: seq<Action>, i: nat, p: Promise)
    requires IsRun(states, actions) && i < |states| && p in states[i].promises && states[i].promises[p].satisfied
    ensures p in states[i].putter
  {
    RunsKeepInv(states, actions, i);
    assert PromiseInv(states[i], p);
  }

  /**
    No wakeup is lost.  A task spawned with the futures `fs` that no thread has in hand
    is scheduled if and only if all of them have been closed by their puts; if not, it
    is on the list of the first that has not.
   */
  lemma NoLostWakeup(states: seq<State>, actions: seq<Action>, k: nat, i: nat, t: TaskId, fs: seq<Promise>)
    requires IsRun(states, actions) && SpawnsAt(actions, k, t, fs) && k < i < |states|
    requires !InHand(states[i], t)
    ensures var s := states[i];
            && (t in s.scheduled <==> forall p <- fs :: Closed(s, p))
            && (t !in s.scheduled ==>
                  exists n | 0 <= n < |fs| ::
                    ClosedUpTo(s, fs, n) && !Closed(s, fs[n]) && fs[n] in s.lists && t in s.lists[fs[n]])
  {
    FuturesAreThoseSpawned(states, actions, k, i, t, fs);
    NoTaskForgotten(states, actions, i, t);
  }

  /** At rest a task spawned with `fs` has been scheduled exactly if a put was called for each of them. */
  lemma AtRestReadyMeansScheduled(states: seq<State>, actions: seq<Action>, k: nat, i: nat, t: TaskId, fs: seq<Promise>)
    requires IsRun(states, actions) && SpawnsAt(actions, k, t, fs) && k < i < |states|
    requires forall th <- states[i].threads :: states[i].threads[th] == Idle
    ensures t in states[i].scheduled <==> forall p <- fs :: PutCalled(actions, i, p)
  {
    FuturesAreThoseSpawned(states, actions, k, i, t, fs);
    AtRestPutMeansScheduled(states, actions, i);
    forall p <- fs
      ensures p in states[i].putter <==> PutCalled(actions, i, p)
    {
      PutsAreThoseCalled(states, actions, i, p);
    }
  }

  /** The cursor visits the futures given to the spawn, in order, each once, and all of them before the task is scheduled. */
  lemma CursorVisitsInOrderOnce(states: seq<State>, actions: seq<Action>, k: nat, i: nat, t: TaskId, fs: seq<Promise>)
    requires IsRun(states, actions) && SpawnsAt(actions, k, t, fs) && k < i < |states|
    ensures var s := states[i];
            && t in s.tasks && s.tasks[t].visited <= fs
            && (t in s.scheduled ==> s.tasks[t].visited == fs)
            && (forall th <- s.threads | HasThen(s.threads[th]) && s.threads[th].t == t ::
                  && (s.threads[th].Advance? && s.threads[th].again ==> Scan(fs, s.tasks[t].index) == Done)
                  && !(s.threads[th].ReadHead? && s.threads[th].again))
  {
    FuturesAreThoseSpawned(states, actions, k, i, t, fs);
    CursorFollowsFutures(states, actions, i, t);
  }

  /** The thread is about to schedule a task that it took off a detached chain. */
  predicate SchedulesInPut(pc: Pc) {
    pc.Schedule? && pc.then_.Walking?
  }

  lemma AdvanceSchedules(s: State, th: Thread)
    requires Enabled(s, Run(th)) && s.threads[th].Advance?
    requires SchedulesInPut(Advanced(s.tasks[s.threads[th].t], s.threads[th]).1)
    ensures s.threads[th].again
    ensures Scan(s.tasks[s.threads[th].t].futures, s.tasks[s.threads[th].t].index) == Done
  {
  }

  lemma AdvanceGoesTo(s: State, th: Thread)
    requires Enabled(s, Run(th)) && s.threads[th].Advance?
    ensures th in RunThread(s, th).threads
    ensures RunThread(s, th).threads[th] == Advanced(s.tasks[s.threads[th].t], s.threads[th]).1
  {
  }

  lemma RegisterNeverSchedules(s: State, th: Thread)
    requires Enabled(s, Run(th)) && (s.threads[th].ReadHead? || s.threads[th].SetNext? || s.threads[th].CasHead?)
    ensures th in RunThread(s, th).threads ==> !RunThread(s, th).threads[th].Schedule?
  {
  }

  lemma ScheduleNeverSchedules(s: State, th: Thread)
    requires Enabled(s, Run(th)) && s.threads[th].Schedule?
    ensures th in RunThread(s, th).threads ==> !RunThread(s, th).threads[th].Schedule?
  {
  }

  lemma PutNeverSchedules(s: State, th: Thread)
    requires Enabled(s, Run(th))
    requires s.threads[th].PutRead? || s.threads[th].PutDatum? || s.threads[th].PutReread?
    ensures th in RunThread(s, th).threads ==> !RunThread(s, th).threads[th].Schedule?
  {
  }

  lemma SwapNeverSchedules(s: State, th: Thread)
    requires Enabled(s, Run(th)) && s.threads[th].PutCas?
    ensures th in RunThread(s, th).threads ==> !RunThread(s, th).threads[th].Schedule?
  {
  }

  lemma TakeAdvances(s: State, th: Thread, p: Promise, t: TaskId, rest: seq<TaskId>)
    requires t in s.tasks && p in s.walked && rest != []
    ensures th in Take(s, th, p, t, rest).threads && Take(s, th, p, t, rest).threads[th].Advance?
  {
  }

  lemma WalkNeverSchedules(s: State, th: Thread)
    requires Enabled(s, Run(th)) && s.threads[th].Walk?
    ensures th in RunThread(s, th).threads ==> !RunThread(s, th).threads[th].Schedule?
  {
    var Walk(p, curr, rest) := s.threads[th];
    if curr == Sentinel {
      assert RunThread(s, th) == Goto(s, th, Idle);
    } else {
      assert RunThread(s, th) == Take(s, th, p, curr.t, rest);
      TakeAdvances(s, th, p, curr.t, rest);
    }
  }

  lemma SchedulingComesFrom(s: State, th: Thread)
    requires Enabled(s, Run(th))
    requires th in RunThread(s, th).threads && SchedulesInPut(RunThread(s, th).threads[th])
    ensures s.threads[th].Advance? && s.threads[th].again && s.threads[th].t in s.tasks
    ensures Scan(s.tasks[s.threads[th].t].futures, s.tasks[s.threads[th].t].index) == Done
  {
    match s.threads[th] {
      case Advance(_, _, _) =>
        AdvanceGoesTo(s, th);
        AdvanceSchedules(s, th);
      case Schedule(_, _) => ScheduleNeverSchedules(s, th);
      case PutCas(_, _) => SwapNeverSchedules(s, th);
      case Walk(_, _, _) => WalkNeverSchedules(s, th);
      case PutRead(_) => PutNeverSchedules(s, th);
      case PutDatum(_, _) => PutNeverSchedules(s, th);
      case PutReread(_) => PutNeverSchedules(s, th);
      case _ => RegisterNeverSchedules(s, th);
    }
  }

  /** A put schedules a task only at the end of the extra call of try_schedule_async, with the cursor at the end of the list. */
  lemma ExtraCallIsMade(states: seq<State>, actions: seq<Action>, i: nat, th: Thread)
    requires IsRun(states, actions) && i < |actions| && actions[i] == Run(th) && th in states[i].threads
    requires th in states[i + 1].threads && SchedulesInPut(states[i + 1].threads[th])
    ensures var pc := states[i].threads[th];
            && pc.Advance? && pc.again && pc.t in states[i].tasks
            && Scan(states[i].tasks[pc.t].futures, states[i].tasks[pc.t].index) == Done
  {
    assert StepAt(states, actions, i);
    SchedulingComesFrom(states[i], th);
  }
}
