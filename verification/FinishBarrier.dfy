/**
  What hclib_end_finish waits for, over whole runs: tasks spawned by tasks spawned
  inside the scope, to any depth and through any number of nested finishes.
 */
module FinishBarrier {
  import opened Common
  import opened FinishScopes

  /** The k-th scope of `path` exists and lies directly inside the one before. */
  predicate InsideAt(s: State, path: seq<Scope>, k: nat)
    requires k < |path|
  {
    path[k] in s.scopes && (k > 0 ==> s.scopes[path[k]].parent == Some(path[k - 1]))
  }

  /** `path` leads inwards from a scope. */
  ghost predicate Inwards(s: State, path: seq<Scope>) {
    path != [] && forall k :: 0 <= k < |path| ==> InsideAt(s, path, k)
  }

  ghost function Last(path: seq<Scope>): Scope
    requires path != []
  {
    path[|path| - 1]
  }

  lemma InwardsJoin(s: State, p: seq<Scope>, q: seq<Scope>)
    requires Inwards(s, p) && Inwards(s, q) && Last(p) == q[0]
    ensures Inwards(s, p + q[1..]) && (p + q[1..])[0] == p[0] && Last(p + q[1..]) == Last(q)
  {
    var path := p + q[1..];
    forall k | 0 <= k < |path|
      ensures InsideAt(s, path, k)
    {
      if k < |p| {
        assert InsideAt(s, p, k);
      } else {
        assert InsideAt(s, q, k - |p| + 1);
        assert path[k] == q[k - |p| + 1];
        assert path[k - 1] == q[k - |p|];
      }
    }
  }

  lemma InwardsFrom(s: State, path: seq<Scope>, i: nat)
    requires Inwards(s, path) && i < |path|
    ensures Inwards(s, path[i..]) && Last(path[i..]) == Last(path)
  {
    forall k | 0 <= k < |path[i..]|
      ensures InsideAt(s, path[i..], k)
    {
      assert InsideAt(s, path, k + i);
    }
  }

  /** The scopes around a task's code: the one it is registered on and those it has opened. */
  function Around(r: TaskRec): seq<Scope> {
    (if r.fin.Some? then [r.fin.value] else []) + r.stack
  }

  lemma AroundIsInwards(s: State, t: TaskId)
    requires t in s.tasks && TaskInv(s, t) && Around(s.tasks[t]) != []
    ensures Inwards(s, Around(s.tasks[t])) && Current(s.tasks[t]) == Some(Last(Around(s.tasks[t])))
  {
    var r := s.tasks[t];
    var path := Around(r);
    forall k | 0 <= k < |path|
      ensures InsideAt(s, path, k)
    {
      if r.fin.Some? && k > 0 {
        assert s.scopes[r.stack[k - 1]].parent == ParentIn(r.fin, r.stack, k - 1);
      } else if r.fin.None? {
        assert s.scopes[r.stack[k]].parent == ParentIn(r.fin, r.stack, k);
      }
    }
  }

  // ---------------------------------------------------------------------
  // What never changes
  // ---------------------------------------------------------------------

  /** Scopes keep their parents and tasks the scope they are registered on. */
  predicate Lasting(s: State, s': State) {
    && (forall f <- s.scopes :: f in s'.scopes && s'.scopes[f].parent == s.scopes[f].parent)
    && (forall t <- s.tasks :: t in s'.tasks && s'.tasks[t].fin == s.tasks[t].fin)
  }

  lemma ScopeLasts(s: State, a: Action, f: Scope)
    requires Enabled(s, a) && f in s.scopes
    ensures f in Step(s, a).scopes && Step(s, a).scopes[f].parent == s.scopes[f].parent
  {
  }

  lemma TaskLasts(s: State, a: Action, t: TaskId)
    requires Enabled(s, a) && t in s.tasks
    ensures t in Step(s, a).tasks && Step(s, a).tasks[t].fin == s.tasks[t].fin
  {
  }

  lemma StepLasts(s: State, a: Action)
    requires Enabled(s, a)
    ensures Lasting(s, Step(s, a))
  {
    var s' := Step(s, a);
    forall f <- s.scopes
      ensures f in s'.scopes && s'.scopes[f].parent == s.scopes[f].parent
    {
      ScopeLasts(s, a, f);
    }
    forall t <- s.tasks
      ensures t in s'.tasks && s'.tasks[t].fin == s.tasks[t].fin
    {
      TaskLasts(s, a, t);
    }
  }

  lemma LastingTransitive(s: State, s': State, s'': State)
    requires Lasting(s, s') && Lasting(s', s'')
    ensures Lasting(s, s'')
  {
  }

  lemma {:induction false} RunLasts(states: seq<State>, actions: seq<Action>, m: nat, n: nat)
    requires IsRun(states, actions) && m <= n < |states|
    ensures Lasting(states[m], states[n])
    decreases n - m
  {
    if m < n {
      RunLasts(states, actions, m, n - 1);
      assert StepAt(states, actions, n - 1);
      StepLasts(states[n - 1], actions[n - 1]);
      LastingTransitive(states[m], states[n - 1], states[n]);
    }
  }

  lemma InwardsLasts(s: State, s': State, path: seq<Scope>)
    requires Inwards(s, path) && Lasting(s, s')
    ensures Inwards(s', path)
  {
    forall k | 0 <= k < |path|
      ensures InsideAt(s', path, k)
    {
      assert InsideAt(s, path, k);
    }
  }

  // ---------------------------------------------------------------------
  // Descendants
  // ---------------------------------------------------------------------

  /** At step `j` the running task `u` spawns `t` as a plain, registered task. */
  predicate Spawns(states: seq<State>, actions: seq<Action>, j: nat, u: TaskId, t: TaskId)
    requires IsRun(states, actions)
  {
    && j < |actions| && actions[j].Spawn? && !actions[j].escaping && actions[j].t == t
    && Runs(states[j], actions[j].w, u)
  }

  /** The code of `u` lies inside `f` at step `j`. */
  predicate CodeInside(states: seq<State>, j: nat, u: TaskId, f: Scope) {
    j < |states| && u in states[j].tasks && f in Around(states[j].tasks[u])
  }

  /** A chain of tasks, each spawned by the one before it, the k-th of them at step js[k - 1]. */
  ghost predicate Descent(states: seq<State>, actions: seq<Action>, tasks: seq<TaskId>, js: seq<nat>)
    requires IsRun(states, actions)
  {
    && |tasks| == |js| + 1
    && forall k :: 0 <= k < |js| ==> Spawns(states, actions, js[k], tasks[k], tasks[k + 1])
  }

  /** No scope on the path was closed by the non-blocking end. */
  ghost predicate AllBlocking(s: State, path: seq<Scope>) {
    forall g <- path :: g in s.scopes && !s.scopes[g].nb
  }

  /** `path` leads from `f` inwards to the scope that `t` is registered on. */
  ghost predicate LeadsTo(s: State, path: seq<Scope>, f: Scope, t: TaskId) {
    Inwards(s, path) && path[0] == f && t in s.tasks && s.tasks[t].fin == Some(Last(path))
  }

  /** Some path leads from `f` inwards to the scope that `t` is registered on. */
  ghost predicate RegisteredWithin(s: State, f: Scope, t: TaskId) {
    exists path :: LeadsTo(s, path, f, t)
  }

  lemma WithinLasts(s: State, s': State, f: Scope, t: TaskId)
    requires RegisteredWithin(s, f, t) && Lasting(s, s')
    ensures RegisteredWithin(s', f, t)
  {
    var path :| LeadsTo(s, path, f, t);
    InwardsLasts(s, s', path);
    assert LeadsTo(s', path, f, t);
  }

  /** A task spawned in the code around which `f` is open is registered within `f`. */
  lemma SpawnedWithin(states: seq<State>, actions: seq<Action>, j: nat, u: TaskId, t: TaskId, f: Scope)
    requires IsRun(states, actions) && Spawns(states, actions, j, u, t)
    requires CodeInside(states, j, u, f) || RegisteredWithin(states[j], f, u)
    ensures RegisteredWithin(states[j + 1], f, t)
  {
    TaskInRun(states, actions, j, u);
    WorkerInRun(states, actions, j, actions[j].w);
    assert StepAt(states, actions, j);
    StepLasts(states[j], actions[j]);
    SpawnedFrom(states[j], actions[j], u, f);
  }

  lemma SpawnedFrom(s: State, a: Action, u: TaskId, f: Scope)
    requires Enabled(s, a) && a.Spawn? && !a.escaping && Runs(s, a.w, u)
    requires TaskInv(s, u) && WorkerInv(s, a.w) && Lasting(s, Step(s, a))
    requires f in Around(s.tasks[u]) || RegisteredWithin(s, f, u)
    ensures RegisteredWithin(Step(s, a), f, a.t)
  {
    var around := Around(s.tasks[u]);
    AroundIsInwards(s, u);
    var path;
    if f in around {
      var i :| 0 <= i < |around| && around[i] == f;
      InwardsFrom(s, around, i);
      path := around[i..];
    } else {
      var outer :| LeadsTo(s, outer, f, u);
      InwardsJoin(s, outer, around);
      path := outer + around[1..];
    }
    InwardsLasts(s, Step(s, a), path);
    assert LeadsTo(Step(s, a), path, f, a.t);
  }

  lemma {:induction false} DescendantsWithin(states: seq<State>, actions: seq<Action>,
                                             tasks: seq<TaskId>, js: seq<nat>, i: nat, f: Scope)
    requires IsRun(states, actions) && Descent(states, actions, tasks, js) && js != []
    requires CodeInside(states, js[0], tasks[0], f)
    requires i < |states| && forall k :: 0 <= k < |js| ==> js[k] < i
    ensures RegisteredWithin(states[i], f, tasks[|js|])
    decreases |js|
  {
    var n := |js| - 1;
    var j := js[n];
    assert Spawns(states, actions, j, tasks[n], tasks[n + 1]);
    if n > 0 {
      SpawnedLater(states, actions, tasks, js);
      DescendantsWithin(states, actions, tasks[..|js|], js[..n], j, f);
    }
    SpawnedWithin(states, actions, j, tasks[n], tasks[n + 1], f);
    RunLasts(states, actions, j + 1, i);
    WithinLasts(states[j + 1], states[i], f, tasks[n + 1]);
  }

  /** A task runs only after it has been spawned, so the steps of a descent come in order. */
  lemma {:induction false} SpawnedLater(states: seq<State>, actions: seq<Action>, tasks: seq<TaskId>, js: seq<nat>)
    requires IsRun(states, actions) && Descent(states, actions, tasks, js) && js != []
    ensures forall k :: 0 <= k < |js| - 1 ==> js[k] < js[|js| - 1]
    ensures Descent(states, actions, tasks[..|js|], js[..|js| - 1])
    decreases |js|
  {
    var n := |js| - 1;
    var tasks', js' := tasks[..|js|], js[..n];
    forall k | 0 <= k < |js'|
      ensures Spawns(states, actions, js'[k], tasks'[k], tasks'[k + 1])
    {
      assert Spawns(states, actions, js[k], tasks[k], tasks[k + 1]);
    }
    if n > 0 {
      SpawnedLater(states, actions, tasks', js');
      assert Spawns(states, actions, js[n - 1], tasks[n - 1], tasks[n]);
      assert Spawns(states, actions, js[n], tasks[n], tasks[n + 1]);
      assert StepAt(states, actions, js[n - 1]);
      if js[n] <= js[n - 1] {
        RunLasts(states, actions, js[n], js[n - 1]);
        assert false;
      }
    }
  }

  /**
    When a blocking end of `f` returns at step `i`, every task that descends through
    plain spawns from code inside `f` is registered within `f`, and it has completed
    if the finishes between `f` and that task were not closed by the non-blocking end.
   */
  lemma ReturnAwaitsDescendants(states: seq<State>, actions: seq<Action>, i: nat, w: Worker, u: TaskId, f: Scope,
                                   tasks: seq<TaskId>, js: seq<nat>)
    requires IsRun(states, actions) && i < |actions| && actions[i] == Run(w)
    requires Runs(states[i], w, u) && states[i].tasks[u].pc == Restoring(f)
    requires f in states[i].scopes && !states[i].scopes[f].nb
    requires Descent(states, actions, tasks, js) && js != [] && forall k :: 0 <= k < |js| ==> js[k] < i
    requires CodeInside(states, js[0], tasks[0], f)
    ensures RegisteredWithin(states[i], f, tasks[|js|])
    ensures forall path :: LeadsTo(states[i], path, f, tasks[|js|]) && AllBlocking(states[i], path) ==>
              states[i].tasks[tasks[|js|]].out
  {
    DescendantsWithin(states, actions, tasks, js, i, f);
    var s, t := states[i], tasks[|js|];
    forall path | LeadsTo(s, path, f, t) && AllBlocking(s, path)
      ensures s.tasks[t].out
    {
      BlockingIsNested(s, path);
      EndFinishIsABarrier(states, actions, i, w, u, f, path, t);
    }
  }

  lemma BlockingIsNested(s: State, path: seq<Scope>)
    requires Inwards(s, path) && AllBlocking(s, path)
    ensures Nested(s, path)
  {
    assert InsideAt(s, path, 0);
    forall k | 0 < k < |path|
      ensures NestedAt(s, path, k)
    {
      assert InsideAt(s, path, k);
      assert path[k] in path;
    }
  }
}
