/**
  What callers of the finish operations get, from the call to the return: the
  barrier of the blocking end, the check-out of the non-blocking one, the scope that
  a spawn registers on, and what it means that a task has completed.
 */
module FinishCalls {
  import opened Common
  import opened FinishScopes
  import opened FinishBarrier

  // ---------------------------------------------------------------------
  // Scopes closed by the non-blocking end
  // ---------------------------------------------------------------------

  /** At step `k` a worker calls the non-blocking end with `f` as its current finish. */
  predicate ClosesNonblocking(states: seq<State>, actions: seq<Action>, k: nat, f: Scope)
    requires |states| == |actions| + 1
  {
    && k < |actions| && actions[k].EndFinishNonblocking?
    && actions[k].w in states[k].workers && states[k].workers[actions[k].w].cur == Some(f)
  }

  /** Such a call has been made before state `n`. */
  predicate ClosedNonblocking(states: seq<State>, actions: seq<Action>, n: nat, f: Scope)
    requires |states| == |actions| + 1
  {
    exists k :: 0 <= k < n && ClosesNonblocking(states, actions, k, f)
  }

  lemma RunKeepsNb(s: State, w: Worker, t: TaskId, f: Scope)
    requires Enabled(s, Run(w)) && t == Top(s, w)
    ensures f in RunTop(s, w, t).scopes <==> f in s.scopes
    ensures f in s.scopes ==> RunTop(s, w, t).scopes[f].nb == s.scopes[f].nb
  {
  }

  /** A scope is marked by the non-blocking end called on it, and by nothing else. */
  lemma NbStep(s: State, a: Action, f: Scope)
    requires Enabled(s, a)
    ensures var closes := a.EndFinishNonblocking? && s.workers[a.w].cur == Some(f);
            && (closes ==> f in s.scopes)
            && (f in Step(s, a).scopes && Step(s, a).scopes[f].nb <==> (f in s.scopes && s.scopes[f].nb) || closes)
  {
    if a.Run? {
      RunKeepsNb(s, a.w, Top(s, a.w), f);
    }
  }

  lemma {:induction false} NbMeansClosedNonblocking(states: seq<State>, actions: seq<Action>, n: nat, f: Scope)
    requires IsRun(states, actions) && n < |states|
    ensures f in states[n].scopes && states[n].scopes[f].nb <==> ClosedNonblocking(states, actions, n, f)
    decreases n
  {
    if n > 0 {
      NbMeansClosedNonblocking(states, actions, n - 1, f);
      assert StepAt(states, actions, n - 1);
      NbStep(states[n - 1], actions[n - 1], f);
      if ClosedNonblocking(states, actions, n, f) && !ClosedNonblocking(states, actions, n - 1, f) {
        var k :| 0 <= k < n && ClosesNonblocking(states, actions, k, f);
        assert k == n - 1;
      }
      if ClosesNonblocking(states, actions, n - 1, f) {
        assert ClosedNonblocking(states, actions, n, f);
      }
    }
  }

  // ---------------------------------------------------------------------
  // A call of the blocking end
  // ---------------------------------------------------------------------

  /** A call of the blocking end by `u` on its current finish `f` at step `i` returns in state `j`. */
  predicate Ends(states: seq<State>, actions: seq<Action>, i: nat, j: nat, w: Worker, u: TaskId, f: Scope)
    requires |states| == |actions| + 1
  {
    && i < j < |states| && actions[i] == EndFinish(w)
    && Runs(states[i], w, u) && states[i].workers[w].cur == Some(f)
    && u in states[j].tasks && states[j].tasks[u].pc == Body
    && (forall k :: i < k < j ==> u in states[k].tasks && states[k].tasks[u].pc != Body)
  }

  /** Task `u` is inside its blocking end of `f`. */
  predicate Ending(s: State, u: TaskId, f: Scope) {
    && u in s.tasks && f in s.scopes && !s.scopes[f].nb
    && (s.tasks[u].pc == Helping(f) || s.tasks[u].pc == Leaving(f) || s.tasks[u].pc == Restoring(f))
  }

  lemma EndBegins(s: State, w: Worker, u: TaskId, f: Scope)
    requires Enabled(s, EndFinish(w)) && Runs(s, w, u) && s.workers[w].cur == Some(f)
    requires TaskInv(s, u) && WorkerInv(s, w)
    ensures Ending(Step(s, EndFinish(w)), u, f)
  {
  }

  /** Nobody else closes the scope, and its own task is busy ending it. */
  lemma NobodyElseCloses(s: State, a: Action, u: TaskId, f: Scope)
    requires Enabled(s, a) && Ending(s, u, f) && TaskInv(s, u) && a.EndFinishNonblocking?
    requires TaskInv(s, Top(s, a.w)) && WorkerInv(s, a.w)
    ensures s.workers[a.w].cur != Some(f)
  {
  }

  lemma OthersKeepTask(s: State, a: Action, u: TaskId)
    requires Enabled(s, a) && !a.Run? && u in s.tasks && !s.tasks[u].pc.Body? && !s.tasks[u].pc.Queued?
    requires a.Spawn? ==> a.t != u
    ensures u in Step(s, a).tasks && Step(s, a).tasks[u] == s.tasks[u]
  {
  }

  lemma OtherRunKeepsTask(s: State, w: Worker, u: TaskId)
    requires Enabled(s, Run(w)) && u in s.tasks && u != Top(s, w)
    ensures u in Step(s, Run(w)).tasks && Step(s, Run(w)).tasks[u] == s.tasks[u]
  {
  }

  lemma EndingOwnStep(s: State, w: Worker, u: TaskId, f: Scope)
    requires Enabled(s, Run(w)) && Ending(s, u, f) && u == Top(s, w)
    ensures var pc := Step(s, Run(w)).tasks[u].pc;
            || pc == Helping(f) || pc == Leaving(f) || pc == Restoring(f)
            || (pc == Body && s.tasks[u].pc == Restoring(f) && s.tasks[u].putting == None)
  {
  }

  lemma EndingStep(s: State, a: Action, u: TaskId, f: Scope)
    requires Enabled(s, a) && Ending(s, u, f) && TaskInv(s, u)
    requires a.EndFinishNonblocking? ==> TaskInv(s, Top(s, a.w)) && WorkerInv(s, a.w)
    ensures u in Step(s, a).tasks
    ensures Step(s, a).tasks[u].pc != Body ==> Ending(Step(s, a), u, f)
    ensures Step(s, a).tasks[u].pc == Body ==>
              && a.Run? && Runs(s, a.w, u) && s.tasks[u].pc == Restoring(f) && s.tasks[u].putting == None
  {
    NbStep(s, a, f);
    if a.EndFinishNonblocking? {
      NobodyElseCloses(s, a, u, f);
    }
    ScopeLasts(s, a, f);
    if a.Run? && Top(s, a.w) == u {
      EndingOwnStep(s, a.w, u, f);
    } else if a.Run? {
      OtherRunKeepsTask(s, a.w, u);
    } else {
      OthersKeepTask(s, a, u);
    }
  }

  lemma EndingStepInRun(states: seq<State>, actions: seq<Action>, k: nat, u: TaskId, f: Scope)
    requires IsRun(states, actions) && k < |actions| && Ending(states[k], u, f)
    ensures u in states[k + 1].tasks
    ensures states[k + 1].tasks[u].pc != Body ==> Ending(states[k + 1], u, f)
    ensures states[k + 1].tasks[u].pc == Body ==>
              && actions[k].Run? && Runs(states[k], actions[k].w, u)
              && states[k].tasks[u].pc == Restoring(f) && states[k].tasks[u].putting == None
  {
    assert StepAt(states, actions, k);
    TaskInRun(states, actions, k, u);
    if actions[k].EndFinishNonblocking? {
      TaskInRun(states, actions, k, Top(states[k], actions[k].w));
      WorkerInRun(states, actions, k, actions[k].w);
    }
    EndingStep(states[k], actions[k], u, f);
  }

  /** From the call to the return the task stays inside its end of `f`; the last step restores the parent scope. */
  lemma EndStaysUntilReturn(states: seq<State>, actions: seq<Action>, i: nat, j: nat, w: Worker, u: TaskId, f: Scope)
    requires IsRun(states, actions) && Ends(states, actions, i, j, w, u, f)
    ensures i + 1 < j && Ending(states[j - 1], u, f)
    ensures actions[j - 1].Run? && Runs(states[j - 1], actions[j - 1].w, u)
    ensures states[j - 1].tasks[u].pc == Restoring(f) && states[j - 1].tasks[u].putting == None
  {
    assert StepAt(states, actions, i);
    TaskInRun(states, actions, i, u);
    WorkerInRun(states, actions, i, w);
    EndBegins(states[i], w, u, f);
    for k := i + 1 to j - 1
      invariant Ending(states[k], u, f)
    {
      EndingStepInRun(states, actions, k, u, f);
    }
    EndingStepInRun(states, actions, j - 1, u, f);
  }

  /** The return changes no scope and no other task. */
  lemma ReturnKeeps(s: State, w: Worker, u: TaskId, f: Scope)
    requires Enabled(s, Run(w)) && Runs(s, w, u) && s.tasks[u].pc == Restoring(f) && s.tasks[u].putting == None
    ensures var s' := Step(s, Run(w));
            && s'.scopes == s.scopes && s'.tasks.Keys == s.tasks.Keys
            && (forall t <- s.tasks :: s'.tasks[t].fin == s.tasks[t].fin && s'.tasks[t].out == s.tasks[t].out)
  {
  }

  /**
    hclib_end_finish is a barrier, from its call to its return.  A task that descends
    through plain spawns from code inside `f` is registered within `f` when the call
    returns, and has completed if no finish between `f` and that task was closed by a
    call of the non-blocking end.
   */
  lemma EndFinishAwaitsDescendants(states: seq<State>, actions: seq<Action>, i: nat, j: nat, w: Worker, u: TaskId,
                                   f: Scope, tasks: seq<TaskId>, js: seq<nat>)
    requires IsRun(states, actions) && Ends(states, actions, i, j, w, u, f)
    requires Descent(states, actions, tasks, js) && js != [] && forall k :: 0 <= k < |js| ==> js[k] < j
    requires CodeInside(states, js[0], tasks[0], f)
    ensures RegisteredWithin(states[j], f, tasks[|js|])
    ensures forall path ::
              && LeadsTo(states[j], path, f, tasks[|js|])
              && (forall g <- path | g != f :: !ClosedNonblocking(states, actions, j, g))
              ==> states[j].tasks[tasks[|js|]].out
  {
    EndStaysUntilReturn(states, actions, i, j, w, u, f);
    assert StepAt(states, actions, j - 1);
    var s, s' := states[j - 1], states[j];
    ReturnKeeps(s, actions[j - 1].w, u, f);
    NoSpawnLast(states, actions, tasks, js, j);
    DescendantsWithin(states, actions, tasks, js, j, f);
    forall path | LeadsTo(s', path, f, tasks[|js|])
                  && (forall g <- path | g != f :: !ClosedNonblocking(states, actions, j, g))
      ensures s'.tasks[tasks[|js|]].out
    {
      SamePaths(s, s', path, f, tasks[|js|]);
      BlockingPath(states, actions, j, path, f);
      BarrierAt(states, actions, j - 1, actions[j - 1].w, u, f, tasks, js, path);
    }
  }

  lemma NoSpawnLast(states: seq<State>, actions: seq<Action>, tasks: seq<TaskId>, js: seq<nat>, j: nat)
    requires IsRun(states, actions) && Descent(states, actions, tasks, js)
    requires 0 < j <= |actions| && actions[j - 1].Run? && forall k :: 0 <= k < |js| ==> js[k] < j
    ensures forall k :: 0 <= k < |js| ==> js[k] < j - 1
  {
    forall k | 0 <= k < |js|
      ensures js[k] < j - 1
    {
      assert Spawns(states, actions, js[k], tasks[k], tasks[k + 1]);
    }
  }

  lemma SamePaths(s: State, s': State, path: seq<Scope>, f: Scope, t: TaskId)
    requires s'.scopes == s.scopes && s'.tasks.Keys == s.tasks.Keys && LeadsTo(s', path, f, t)
    requires forall t <- s.tasks :: s'.tasks[t].fin == s.tasks[t].fin && s'.tasks[t].out == s.tasks[t].out
    ensures LeadsTo(s, path, f, t) && s'.tasks[t].out == s.tasks[t].out
  {
    forall k | 0 <= k < |path|
      ensures InsideAt(s, path, k)
    {
      assert InsideAt(s', path, k);
    }
  }

  lemma BlockingPath(states: seq<State>, actions: seq<Action>, j: nat, path: seq<Scope>, f: Scope)
    requires IsRun(states, actions) && 0 < j < |states| && Inwards(states[j - 1], path)
    requires f in states[j - 1].scopes && !states[j - 1].scopes[f].nb
    requires forall g <- path | g != f :: !ClosedNonblocking(states, actions, j, g)
    ensures AllBlocking(states[j - 1], path)
  {
    forall g <- path
      ensures g in states[j - 1].scopes && !states[j - 1].scopes[g].nb
    {
      var k :| 0 <= k < |path| && path[k] == g;
      assert InsideAt(states[j - 1], path, k);
      NbMeansClosedNonblocking(states, actions, j - 1, g);
    }
  }

  lemma BarrierAt(states: seq<State>, actions: seq<Action>, i: nat, w: Worker, u: TaskId, f: Scope,
                  tasks: seq<TaskId>, js: seq<nat>, path: seq<Scope>)
    requires IsRun(states, actions) && i < |actions| && actions[i] == Run(w)
    requires Runs(states[i], w, u) && states[i].tasks[u].pc == Restoring(f) && f in states[i].scopes
    requires !states[i].scopes[f].nb && js != []
    requires Descent(states, actions, tasks, js) && forall k :: 0 <= k < |js| ==> js[k] < i
    requires LeadsTo(states[i], path, f, tasks[|js|]) && AllBlocking(states[i], path)
    requires CodeInside(states, js[0], tasks[0], f)
    ensures states[i].tasks[tasks[|js|]].out
  {
    ReturnAwaitsDescendants(states, actions, i, w, u, f, tasks, js);
  }

  /** The loop of the blocking end is left exactly when it sees the counter at one; otherwise the step changes nothing. */
  lemma HelpLeavesAtOne(s: State, w: Worker, u: TaskId, f: Scope)
    requires Enabled(s, Run(w)) && Runs(s, w, u) && s.tasks[u].pc == Helping(f) && s.tasks[u].putting == None
    ensures var s' := Step(s, Run(w));
            && (s.scopes[f].counter == 1 <==> s'.tasks[u].pc == Leaving(f))
            && (s.scopes[f].counter != 1 ==> s' == s)
  {
  }

  // ---------------------------------------------------------------------
  // What a spawn registers and what completion means
  // ---------------------------------------------------------------------

  /** A spawned task is queued; a plain spawn registers it on its parent's current scope, an escaping one on none. */
  lemma SpawnRegistersAsAsked(states: seq<State>, actions: seq<Action>, i: nat, w: Worker, u: TaskId, t: TaskId,
                              escaping: bool)
    requires IsRun(states, actions) && i < |actions| && actions[i] == Spawn(w, t, escaping) && Runs(states[i], w, u)
    ensures t !in states[i].tasks && t in states[i + 1].tasks
    ensures states[i + 1].tasks[t].pc == Queued && !states[i + 1].tasks[t].out
    ensures states[i + 1].tasks[t].fin == if escaping then None else Current(states[i].tasks[u])
  {
    assert StepAt(states, actions, i);
    WorkerInRun(states, actions, i, w);
  }

  /** Task `t` was taken from the queue before state `n`. */
  predicate WasExecuted(actions: seq<Action>, n: nat, t: TaskId) {
    exists k :: 0 <= k < n && k < |actions| && actions[k].Execute? && actions[k].t == t
  }

  /** The code of `t` returned before state `n`. */
  predicate HasReturned(states: seq<State>, actions: seq<Action>, n: nat, t: TaskId)
    requires |states| == |actions| + 1
  {
    exists k :: 0 <= k < n && ReturnsAt(states, actions, k, t)
  }

  predicate ReturnsAt(states: seq<State>, actions: seq<Action>, k: nat, t: TaskId)
    requires |states| == |actions| + 1
  {
    k < |actions| && actions[k].Return? && Runs(states[k], actions[k].w, t)
  }

  predicate Over(pc: Pc) {
    pc.Ending? || pc.Ended? || pc.Done?
  }

  /** A task leaves the queue by being executed, and its code is over once it has returned. */
  lemma StageStep(s: State, a: Action, t: TaskId)
    requires Enabled(s, a) && t in Step(s, a).tasks
    ensures t !in s.tasks ==> Step(s, a).tasks[t].pc == Queued
    ensures t in s.tasks && s.tasks[t].pc == Queued && Step(s, a).tasks[t].pc != Queued ==>
              (a.Execute? && a.t == t && Step(s, a).tasks[t].pc == Body) || (a.Run? && Top(s, a.w) == t)
              || (!a.Execute? && !a.Run? && Top(s, a.w) == t)
    ensures t in s.tasks && !Over(s.tasks[t].pc) && Over(Step(s, a).tasks[t].pc) ==>
              (a.Return? && Runs(s, a.w, t)) || (a.Run? && Top(s, a.w) == t)
  {
  }

  lemma RunNeverSkips(s: State, w: Worker, t: TaskId)
    requires Enabled(s, Run(w)) && Top(s, w) == t && t in s.tasks && TaskInv(s, t)
    ensures t in Step(s, Run(w)).tasks
    ensures s.tasks[t].pc != Queued
    ensures Over(Step(s, Run(w)).tasks[t].pc) ==> Over(s.tasks[t].pc)
  {
  }

  lemma {:induction false} StagesComeFromCalls(states: seq<State>, actions: seq<Action>, n: nat, t: TaskId)
    requires IsRun(states, actions) && n < |states| && t in states[n].tasks
    ensures states[n].tasks[t].pc != Queued ==> WasExecuted(actions, n, t)
    ensures Over(states[n].tasks[t].pc) ==> HasReturned(states, actions, n, t)
    decreases n
  {
    if n > 0 {
      var s, a := states[n - 1], actions[n - 1];
      assert StepAt(states, actions, n - 1);
      StageStep(s, a, t);
      if t in s.tasks {
        StagesComeFromCalls(states, actions, n - 1, t);
        TaskInRun(states, actions, n - 1, t);
        if !a.Execute? && Top(s, a.w) == t {
          WorkerInRun(states, actions, n - 1, a.w);
          assert s.workers[a.w].frames[|s.workers[a.w].frames| - 1] == t;
        }
        if a.Run? && Top(s, a.w) == t {
          RunNeverSkips(s, a.w, t);
        }
        if a.Return? && Runs(s, a.w, t) {
          assert ReturnsAt(states, actions, n - 1, t);
        }
      }
    }
  }

  /** A task that has completed was executed and its code has returned. */
  lemma CompletedMeansRan(states: seq<State>, actions: seq<Action>, n: nat, t: TaskId)
    requires IsRun(states, actions) && n < |states| && t in states[n].tasks && states[n].tasks[t].out
    ensures WasExecuted(actions, n, t) && HasReturned(states, actions, n, t)
  {
    TaskInRun(states, actions, n, t);
    OutMeansEnded(states[n], t);
    StagesComeFromCalls(states, actions, n, t);
  }

  // ---------------------------------------------------------------------
  // The non-blocking end
  // ---------------------------------------------------------------------

  /** A call of the non-blocking end by `u` on its current finish `f` at step `i` returns in state `j`. */
  predicate EndsNonblocking(states: seq<State>, actions: seq<Action>, i: nat, j: nat, w: Worker, u: TaskId, f: Scope)
    requires |states| == |actions| + 1
  {
    && i < j < |states| && actions[i] == EndFinishNonblocking(w)
    && Runs(states[i], w, u) && states[i].workers[w].cur == Some(f)
    && u in states[j].tasks && states[j].tasks[u].pc == Body
    && (forall k :: i < k < j ==> u in states[k].tasks && states[k].tasks[u].pc != Body)
  }

  /** Task `u` is inside its non-blocking end of `f`; past the first check-out the body's token is gone. */
  predicate Closing(s: State, u: TaskId, f: Scope) {
    && u in s.tasks && f in s.scopes && s.scopes[f].nb && s.scopes[f].dep && s.scopes[f].owner == u
    && (|| s.tasks[u].pc == NbSelf(f)
        || (s.tasks[u].pc == Leaving(f) && !s.scopes[f].body)
        || (s.tasks[u].pc == Restoring(f) && !s.scopes[f].body && s.scopes[f].released))
  }

  lemma ClosingBegins(s: State, w: Worker, u: TaskId, f: Scope)
    requires Enabled(s, EndFinishNonblocking(w)) && Runs(s, w, u) && s.workers[w].cur == Some(f)
    requires TaskInv(s, u) && WorkerInv(s, w)
    ensures Closing(Step(s, EndFinishNonblocking(w)), u, f)
  {
  }

  lemma ClosingOwnStep(s: State, w: Worker, u: TaskId, f: Scope)
    requires Enabled(s, Run(w)) && Closing(s, u, f) && u == Top(s, w)
    requires s.scopes[f].parent != Some(f)
    ensures var s' := Step(s, Run(w));
            && u in s'.tasks
            && (s'.tasks[u].pc != Body ==> Closing(s', u, f))
            && (s'.tasks[u].pc == Body ==> f in s'.scopes && s'.scopes[f].nb && s'.scopes[f].dep
                                           && !s'.scopes[f].body && s'.scopes[f].released)
  {
  }

  /** Nobody but its owner changes these marks of a scope. */
  lemma MarksStay(s: State, a: Action, u: TaskId, f: Scope)
    requires Enabled(s, a) && f in s.scopes && s.scopes[f].owner == u
    requires a.Execute? || (Top(s, a.w) != u && TaskInv(s, Top(s, a.w)) && WorkerInv(s, a.w))
    ensures var s' := Step(s, a);
            && f in s'.scopes && SameShape(s.scopes[f], s'.scopes[f]) && s'.scopes[f].owner == u
            && (s.scopes[f].dep ==> s'.scopes[f].dep)
  {
    if a.Run? {
      RunMarksStay(s, a.w, u, f);
    }
  }

  lemma RunMarksStay(s: State, w: Worker, u: TaskId, f: Scope)
    requires Enabled(s, Run(w)) && f in s.scopes && s.scopes[f].owner == u
    requires Top(s, w) != u && TaskInv(s, Top(s, w))
    ensures var s' := Step(s, Run(w));
            && f in s'.scopes && SameShape(s.scopes[f], s'.scopes[f]) && s'.scopes[f].owner == u
            && (s.scopes[f].dep ==> s'.scopes[f].dep)
  {
  }

  lemma NotItsOwnParent(s: State, u: TaskId, f: Scope)
    requires u in s.tasks && TaskInv(s, u) && s.tasks[u].stack != [] && Current(s.tasks[u]) == Some(f)
    ensures f in s.scopes && s.scopes[f].parent != Some(f)
  {
    var stack := s.tasks[u].stack;
    var n := |stack| - 1;
    assert s.scopes[stack[n]].parent == ParentIn(s.tasks[u].fin, stack, n);
  }

  lemma ClosingStep(s: State, a: Action, u: TaskId, f: Scope)
    requires Enabled(s, a) && Closing(s, u, f) && TaskInv(s, u)
    requires a.Execute? || (TaskInv(s, Top(s, a.w)) && WorkerInv(s, a.w))
    ensures var s' := Step(s, a);
            && u in s'.tasks
            && (s'.tasks[u].pc != Body ==> Closing(s', u, f))
            && (s'.tasks[u].pc == Body ==> f in s'.scopes && s'.scopes[f].nb && s'.scopes[f].dep
                                           && !s'.scopes[f].body && s'.scopes[f].released)
  {
    NotItsOwnParent(s, u, f);
    if a.Run? && Top(s, a.w) == u {
      ClosingOwnStep(s, a.w, u, f);
    } else {
      MarksStay(s, a, u, f);
      if a.Run? {
        OtherRunKeepsTask(s, a.w, u);
      } else {
        OthersKeepTask(s, a, u);
      }
    }
  }

  lemma ClosingStepInRun(states: seq<State>, actions: seq<Action>, k: nat, u: TaskId, f: Scope)
    requires IsRun(states, actions) && k < |actions| && Closing(states[k], u, f)
    ensures var s' := states[k + 1];
            && u in s'.tasks
            && (s'.tasks[u].pc != Body ==> Closing(s', u, f))
            && (s'.tasks[u].pc == Body ==> f in s'.scopes && s'.scopes[f].nb && s'.scopes[f].dep
                                           && !s'.scopes[f].body && s'.scopes[f].released)
  {
    assert StepAt(states, actions, k);
    TaskInRun(states, actions, k, u);
    if !actions[k].Execute? {
      TaskInRun(states, actions, k, Top(states[k], actions[k].w));
      WorkerInRun(states, actions, k, actions[k].w);
    }
    ClosingStep(states[k], actions[k], u, f);
  }

  /**
    When the non-blocking end returns, finish_dep is set, the body has checked out of
    the scope and the scope out of its parent.
   */
  lemma NonblockingEndChecksOut(states: seq<State>, actions: seq<Action>, i: nat, j: nat, w: Worker, u: TaskId, f: Scope)
    requires IsRun(states, actions) && EndsNonblocking(states, actions, i, j, w, u, f)
    ensures f in states[j].scopes
    ensures states[j].scopes[f].nb && states[j].scopes[f].dep && !states[j].scopes[f].body && states[j].scopes[f].released
  {
    assert StepAt(states, actions, i);
    TaskInRun(states, actions, i, u);
    WorkerInRun(states, actions, i, w);
    ClosingBegins(states[i], w, u, f);
    for k := i + 1 to j - 1
      invariant Closing(states[k], u, f)
    {
      ClosingStepInRun(states, actions, k, u, f);
    }
    ClosingStepInRun(states, actions, j - 1, u, f);
  }

  /**
    The promise of a scope that its body has left is put exactly when the last of its
    tasks and child finishes has checked out, unless the put is just being made.
   */
  lemma ClosedScopeIsPut(states: seq<State>, actions: seq<Action>, i: nat, f: Scope)
    requires IsRun(states, actions) && i < |states| && f in states[i].scopes && !states[i].scopes[f].body
    requires forall t <- states[i].tasks :: states[i].tasks[t].putting != Some(f)
    ensures states[i].scopes[f].put <==> LiveTasks(states[i], f) == {} && OpenKids(states[i], f) == {}
  {
    ScopeInRun(states, actions, i, f);
  }

  // ---------------------------------------------------------------------
  // Every call but a wait ends
  // ---------------------------------------------------------------------

  /** A bound on the steps of the runtime's part of a call. */
  function Rank(r: TaskRec): nat {
    (if r.putting.Some? then 1 else 0) +
    match r.pc
    case Waiting(_) => 1
    case Helping(_) => 10
    case NbSelf(_) => 8
    case Leaving(_) => 6
    case Restoring(_) => 4
    case Ending => 4
    case Ended => 2
    case _ => 0
  }

  /** Each step of the runtime brings its call nearer to the end, except for the wait until the counter is one. */
  lemma RuntimeStepsSink(s: State, w: Worker, u: TaskId)
    requires Enabled(s, Run(w)) && u == Top(s, w)
    ensures u in Step(s, Run(w)).tasks
    ensures || Rank(Step(s, Run(w)).tasks[u]) < Rank(s.tasks[u])
            || (&& s.tasks[u].pc.Helping? && s.tasks[u].putting == None
                && s.scopes[s.tasks[u].pc.f].counter != 1 && Step(s, Run(w)) == s)
  {
  }
}
