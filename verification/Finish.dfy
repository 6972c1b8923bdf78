/**
  Finish scopes: the counter protocol of src/hclib-runtime.c as a machine of
  atomic steps.

  A worker runs tasks on a stack of frames; another task can run above one that is
  helping at the end of a finish, waiting for a future or yielding.  `cur` is the
  worker's current_finish, which execute_task overwrites and which each of these
  calls restores.  What a future waits for is not part of this model: a wait may end
  at any time.  Every increment or decrement
  of a counter, every test of a counter and every put of a finish promise is one
  step.

  In a scope `owner`, `body`, `nb`, `drained`, `released`, `fired`, `firer` and
  `put` are auxiliary, as are `stack`, `out` and `worker` in a task: they record
  and never influence a step.
 */
module FinishScopes {
  import opened Common

  type Scope = nat
  type TaskId = nat
  type Worker = nat

  datatype ScopeRec = ScopeRec(
    parent: Option<Scope>,
    counter: int,
    dep: bool,         // finish_dep has been set
    owner: TaskId,     // the task that opened the scope
    body: bool,        // the token of the body is still in the counter
    nb: bool,          // closed by the non-blocking end
    drained: bool,     // the blocking end saw the counter at one
    released: bool,    // has checked out of its parent
    fired: bool,       // the counter was decremented to zero ...
    firer: TaskId,     // ... by this task
    put: bool)         // the finish promise has been put

  type Scopes = map<Scope, ScopeRec>

  datatype Pc =
    | Queued
    | Body                 // running user code
    | Waiting(saved: Option<Scope>)  // in hclib_future_wait or hclib_yield, with the saved current finish
    | Helping(f: Scope)    // in help_finish, with the counter not yet seen at one
    | NbSelf(f: Scope)     // about to check out of the scope it closes
    | Leaving(f: Scope)    // about to check the scope out of its parent
    | Restoring(f: Scope)  // about to restore the worker's current finish
    | Ending               // the body returned: about to check out
    | Ended                // checked out, the frame is about to go
    | Done

  datatype TaskRec = TaskRec(
    fin: Option<Scope>,       // the scope the task is registered on; None if it escapes
    pc: Pc,
    putting: Option<Scope>,   // a decrement reached zero, the put comes next
    stack: seq<Scope>,        // the scopes this task has opened and not left, innermost last
    out: bool,                // has checked out of `fin`
    worker: Option<Worker>)

  datatype WorkerRec = WorkerRec(cur: Option<Scope>, frames: seq<TaskId>)

  datatype State = State(
    scopes: Scopes,
    tasks: map<TaskId, TaskRec>,
    workers: map<Worker, WorkerRec>)

  datatype Action =
    | Spawn(w: Worker, t: TaskId, escaping: bool)
    | StartFinish(w: Worker, f: Scope)
    | EndFinish(w: Worker)
    | EndFinishNonblocking(w: Worker)
    | Wait(w: Worker)
    | Return(w: Worker)
    | Execute(w: Worker, t: TaskId)
    | Run(w: Worker)

  const ROOT: TaskId := 0

  /** One task is ready and no scope is open. */
  predicate Init(s: State) {
    && s.scopes == map[]
    && s.tasks == map[ROOT := TaskRec(None, Queued, None, [], false, None)]
    && forall w <- s.workers :: s.workers[w] == WorkerRec(None, [])
  }

  /** The running task of a worker. */
  predicate Runs(s: State, w: Worker, t: TaskId) {
    && w in s.workers && s.workers[w].frames != []
    && s.workers[w].frames[|s.workers[w].frames| - 1] == t
    && t in s.tasks
  }

  function Top(s: State, w: Worker): TaskId
    requires w in s.workers && s.workers[w].frames != []
  {
    s.workers[w].frames[|s.workers[w].frames| - 1]
  }

  predicate InBody(s: State, w: Worker) {
    && w in s.workers && s.workers[w].frames != [] && Top(s, w) in s.tasks
    && s.tasks[Top(s, w)].pc == Body && s.tasks[Top(s, w)].putting == None
    && (s.workers[w].cur.Some? ==> s.workers[w].cur.value in s.scopes)
  }

  /** The task is inside a call that runs other tasks on the same stack. */
  predicate LetsOthersRun(pc: Pc) {
    pc.Helping? || pc.Waiting?
  }

  /** A task closes the scopes it opened, innermost first, and all of them before it returns. */
  predicate Enabled(s: State, a: Action) {
    match a
    case Spawn(w, t, _) => InBody(s, w) && t !in s.tasks
    case StartFinish(w, f) => InBody(s, w) && f !in s.scopes
    case EndFinish(w) => InBody(s, w) && s.tasks[Top(s, w)].stack != [] && s.workers[w].cur.Some?
    case EndFinishNonblocking(w) => InBody(s, w) && s.tasks[Top(s, w)].stack != [] && s.workers[w].cur.Some?
    case Wait(w) => InBody(s, w)
    case Return(w) => InBody(s, w) && s.tasks[Top(s, w)].stack == []
    case Execute(w, t) =>
      && t in s.tasks && s.tasks[t].pc == Queued
      && w in s.workers
      && (s.workers[w].frames == [] ||
          (Top(s, w) in s.tasks && LetsOthersRun(s.tasks[Top(s, w)].pc) && s.tasks[Top(s, w)].putting == None))
    case Run(w) =>
      && w in s.workers && s.workers[w].frames != [] && Top(s, w) in s.tasks
      && Ready(s, s.tasks[Top(s, w)])
  }

  /** The task's next step is the runtime's, and the scopes it follows exist. */
  predicate Ready(s: State, r: TaskRec) {
    match r.putting
    case Some(g) => g in s.scopes
    case None =>
      match r.pc
      case Waiting(_) => true
      case Helping(f) => f in s.scopes
      case NbSelf(f) => f in s.scopes
      case Leaving(f) => f in s.scopes && (s.scopes[f].parent.Some? ==> s.scopes[f].parent.value in s.scopes)
      case Restoring(f) => f in s.scopes && r.stack != []
      case Ending => r.fin.Some? ==> r.fin.value in s.scopes
      case Ended => true
      case _ => false
  }

  /** check_in_finish */
  function CheckIn(scopes: Scopes, f: Option<Scope>): Scopes
    requires f.Some? ==> f.value in scopes
  {
    if f.None? then scopes
    else scopes[f.value := scopes[f.value].(counter := scopes[f.value].counter + 1)]
  }

  /** check_out_finish up to the put: the decrement, remembering who reached zero. */
  function CheckOut(scopes: Scopes, f: Option<Scope>, t: TaskId): Scopes
    requires f.Some? ==> f.value in scopes
  {
    if f.None? then scopes
    else
      var r := scopes[f.value];
      var zero := r.counter == 1;
      scopes[f.value := r.(counter := r.counter - 1,
                           fired := r.fired || zero,
                           firer := if zero then t else r.firer)]
  }

  /** The put that a decrement of `f` calls for. */
  function PutDue(scopes: Scopes, f: Option<Scope>): Option<Scope>
    requires f.Some? ==> f.value in scopes
  {
    if f.Some? && scopes[f.value].counter == 1 then f else None
  }

  function SetTask(s: State, t: TaskId, r: TaskRec): State {
    s.(tasks := s.tasks[t := r])
  }

  function Step(s: State, a: Action): State
    requires Enabled(s, a)
  {
    match a
    case Spawn(w, t, escaping) =>
      var fin := if escaping then None else s.workers[w].cur;
      s.(scopes := CheckIn(s.scopes, fin),
         tasks := s.tasks[t := TaskRec(fin, Queued, None, [], false, None)])
    case StartFinish(w, f) =>
      var t, parent := Top(s, w), s.workers[w].cur;
      s.(scopes := CheckIn(s.scopes, parent)[
                     f := ScopeRec(parent, 1, false, t, true, false, false, false, false, t, false)],
         tasks := s.tasks[t := s.tasks[t].(stack := s.tasks[t].stack + [f])],
         workers := s.workers[w := s.workers[w].(cur := Some(f))])
    case EndFinish(w) =>
      SetTask(s, Top(s, w), s.tasks[Top(s, w)].(pc := Helping(s.workers[w].cur.value)))
    case EndFinishNonblocking(w) =>
      var f := s.workers[w].cur.value;
      SetTask(s.(scopes := s.scopes[f := s.scopes[f].(dep := true, nb := true)]),
              Top(s, w), s.tasks[Top(s, w)].(pc := NbSelf(f)))
    case Wait(w) =>
      SetTask(s, Top(s, w), s.tasks[Top(s, w)].(pc := Waiting(s.workers[w].cur)))
    case Return(w) =>
      SetTask(s, Top(s, w), s.tasks[Top(s, w)].(pc := Ending))
    case Execute(w, t) =>
      s.(tasks := s.tasks[t := s.tasks[t].(pc := Body, worker := Some(w))],
         workers := s.workers[w := WorkerRec(s.tasks[t].fin, s.workers[w].frames + [t])])
    case Run(w) =>
      RunTop(s, w, Top(s, w))
  }

  function RunTop(s: State, w: Worker, t: TaskId): State
    requires Enabled(s, Run(w)) && t == Top(s, w)
  {
    var r := s.tasks[t];
    if r.putting.Some? then
      Put(s, t, r.putting.value)
    else
      match r.pc
      case Waiting(saved) => Resume(s, w, t, saved)
      case Helping(f) => Help(s, t, f)
      case NbSelf(f) => DropBody(s, t, f)
      case Leaving(f) => Release(s, t, f)
      case Restoring(f) => Restore(s, w, t, f)
      case Ending => Finish(s, t)
      case _ => PopFrame(s, w, t)
  }

  /** hclib_promise_put on the scope's finish_dep. */
  function Put(s: State, t: TaskId, g: Scope): State
    requires t in s.tasks && g in s.scopes
  {
    SetTask(s.(scopes := s.scopes[g := s.scopes[g].(put := true)]), t, s.tasks[t].(putting := None))
  }

  /** The end of hclib_future_wait and hclib_yield: back to user code with the saved current finish. */
  function Resume(s: State, w: Worker, t: TaskId, saved: Option<Scope>): State
    requires t in s.tasks && w in s.workers
  {
    SetTask(s.(workers := s.workers[w := s.workers[w].(cur := saved)]), t, s.tasks[t].(pc := Body))
  }

  /** The loop test of help_finish. */
  function Help(s: State, t: TaskId, f: Scope): State
    requires t in s.tasks && f in s.scopes
  {
    if s.scopes[f].counter == 1 then
      SetTask(s.(scopes := s.scopes[f := s.scopes[f].(drained := true)]), t, s.tasks[t].(pc := Leaving(f)))
    else
      s
  }

  /** The non-blocking end checks the body out of its own scope. */
  function DropBody(s: State, t: TaskId, f: Scope): State
    requires t in s.tasks && f in s.scopes
  {
    var scopes := CheckOut(s.scopes, Some(f), t);
    SetTask(s.(scopes := scopes[f := scopes[f].(body := false)]),
            t, s.tasks[t].(pc := Leaving(f), putting := PutDue(s.scopes, Some(f))))
  }

  /** Both ends check the scope out of its parent. */
  function Release(s: State, t: TaskId, f: Scope): State
    requires t in s.tasks && f in s.scopes
    requires s.scopes[f].parent.Some? ==> s.scopes[f].parent.value in s.scopes
  {
    var parent := s.scopes[f].parent;
    var scopes := CheckOut(s.scopes, parent, t);
    SetTask(s.(scopes := scopes[f := scopes[f].(released := true)]),
            t, s.tasks[t].(pc := Restoring(f), putting := PutDue(s.scopes, parent)))
  }

  /** The worker's current finish becomes the parent; the call returns. */
  function Restore(s: State, w: Worker, t: TaskId, f: Scope): State
    requires t in s.tasks && f in s.scopes && w in s.workers && s.tasks[t].stack != []
  {
    var r := s.tasks[t];
    SetTask(s.(workers := s.workers[w := s.workers[w].(cur := s.scopes[f].parent)]),
            t, r.(pc := Body, stack := r.stack[..|r.stack| - 1]))
  }

  /** The end of execute_task. */
  function Finish(s: State, t: TaskId): State
    requires t in s.tasks && (s.tasks[t].fin.Some? ==> s.tasks[t].fin.value in s.scopes)
  {
    var fin := s.tasks[t].fin;
    SetTask(s.(scopes := CheckOut(s.scopes, fin, t)),
            t, s.tasks[t].(pc := Ended, out := true, putting := PutDue(s.scopes, fin)))
  }

  function PopFrame(s: State, w: Worker, t: TaskId): State
    requires t in s.tasks && w in s.workers && s.workers[w].frames != []
  {
    var frames := s.workers[w].frames;
    SetTask(s.(workers := s.workers[w := s.workers[w].(frames := frames[..|frames| - 1])]),
            t, s.tasks[t].(pc := Done))
  }

  // ---------------------------------------------------------------------
  // The invariant
  // ---------------------------------------------------------------------

  /** Tasks registered on `f` that have not checked out. */
  function LiveTasks(s: State, f: Scope): set<TaskId> {
    set t | t in s.tasks && s.tasks[t].fin == Some(f) && !s.tasks[t].out
  }

  /** Finishes opened directly inside `f` that have not checked out of it. */
  function OpenKids(s: State, f: Scope): set<Scope> {
    set g | g in s.scopes && s.scopes[g].parent == Some(f) && !s.scopes[g].released
  }

  predicate ScopeInv(s: State, f: Scope)
    requires f in s.scopes
  {
    var r := s.scopes[f];
    && r.counter == (if r.body then 1 else 0) + |LiveTasks(s, f)| + |OpenKids(s, f)|
    && (r.parent.Some? ==> r.parent.value in s.scopes)
    && r.owner in s.tasks
    && (!r.released ==> f in s.tasks[r.owner].stack)
    && (!r.body ==> r.nb)
    && (r.nb ==> r.dep)
    && (r.drained ==> !r.nb && LiveTasks(s, f) == {} && OpenKids(s, f) == {})
    && (r.released ==> r.drained || r.nb)
    && (r.fired <==> r.counter == 0)
    && (r.put ==> r.fired)
    && (r.fired && !r.put ==> r.firer in s.tasks && s.tasks[r.firer].putting == Some(f))
  }

  /** The scope around the task's code. */
  function Current(r: TaskRec): Option<Scope> {
    if r.stack == [] then r.fin else Some(r.stack[|r.stack| - 1])
  }

  /** An open scope of `t`: neither end has been started. */
  predicate Open(scopes: Scopes, t: TaskId, f: Scope) {
    && f in scopes
    && scopes[f].owner == t
    && scopes[f].body && !scopes[f].nb && !scopes[f].drained && !scopes[f].released
  }

  function ParentIn(fin: Option<Scope>, stack: seq<Scope>, i: nat): Option<Scope>
    requires i < |stack|
  {
    if i == 0 then fin else Some(stack[i - 1])
  }

  /** The scopes a task has opened, each inside the one before; the innermost may be closing. */
  predicate StackInv(scopes: Scopes, t: TaskId, fin: Option<Scope>, stack: seq<Scope>) {
    && (forall i :: 0 <= i < |stack| ==>
          stack[i] in scopes && scopes[stack[i]].owner == t && fin != Some(stack[i]))
    && (forall i {:trigger ParentIn(fin, stack, i)} :: 0 <= i < |stack| ==>
          scopes[stack[i]].parent == ParentIn(fin, stack, i))
    && (forall i :: 0 <= i < |stack| - 1 ==> Open(scopes, t, stack[i]))
    && (forall i, j :: 0 <= i < j < |stack| ==> stack[i] != stack[j])
  }

  predicate PcInv(scopes: Scopes, t: TaskId, r: TaskRec) {
    match r.pc
    case Queued => r.stack == [] && !r.out && r.putting == None
    case Body => !r.out && r.putting == None && (r.stack != [] ==> Open(scopes, t, Current(r).value))
    case Waiting(saved) =>
      && !r.out && r.putting == None && saved == Current(r)
      && (r.stack != [] ==> Open(scopes, t, Current(r).value))
    case Helping(f) => !r.out && r.putting == None && r.stack != [] && Current(r) == Some(f) && Open(scopes, t, f)
    case NbSelf(f) =>
      && !r.out && r.putting == None && r.stack != [] && Current(r) == Some(f) && f in scopes
      && scopes[f].body && scopes[f].nb && !scopes[f].released
    case Leaving(f) =>
      && !r.out && r.stack != [] && Current(r) == Some(f) && f in scopes
      && !scopes[f].released
      && (scopes[f].drained || scopes[f].nb)
    case Restoring(f) =>
      && !r.out && r.stack != [] && Current(r) == Some(f) && f in scopes
      && scopes[f].released
    case Ending => !r.out && r.putting == None && r.stack == []
    case Ended => r.out && r.stack == []
    case Done => r.out && r.stack == [] && r.putting == None
  }

  /** A put that is due has not been made, and this task is the one that owes it. */
  predicate PutInv(scopes: Scopes, t: TaskId, g: Option<Scope>) {
    g.Some? ==>
      g.value in scopes && scopes[g.value].fired && !scopes[g.value].put && scopes[g.value].firer == t
  }

  predicate TaskInv(s: State, t: TaskId)
    requires t in s.tasks
  {
    var r := s.tasks[t];
    && (r.fin.Some? ==> r.fin.value in s.scopes)
    && StackInv(s.scopes, t, r.fin, r.stack)
    && PcInv(s.scopes, t, r)
    && PutInv(s.scopes, t, r.putting)
    && (r.pc.Queued? || r.pc.Done? ||
        (r.worker.Some? && r.worker.value in s.workers && t in s.workers[r.worker.value].frames))
  }

  predicate WorkerInv(s: State, w: Worker)
    requires w in s.workers
  {
    var frames := s.workers[w].frames;
    && (forall i :: 0 <= i < |frames| ==>
          && frames[i] in s.tasks
          && s.tasks[frames[i]].worker == Some(w)
          && !s.tasks[frames[i]].pc.Queued? && !s.tasks[frames[i]].pc.Done?)
    && (forall i :: 0 <= i < |frames| - 1 ==> LetsOthersRun(s.tasks[frames[i]].pc))
    && (forall i, j :: 0 <= i < j < |frames| ==> frames[i] != frames[j])
    && (frames != [] && s.tasks[Top(s, w)].pc == Body ==> s.workers[w].cur == Current(s.tasks[Top(s, w)]))
  }

  predicate Inv(s: State) {
    && (forall f <- s.scopes :: ScopeInv(s, f))
    && (forall t <- s.tasks :: TaskInv(s, t))
    && (forall w <- s.workers :: WorkerInv(s, w))
  }

  // ---------------------------------------------------------------------
  // What a step of task `t` on worker `w` leaves alone
  // ---------------------------------------------------------------------

  /** The fields of a scope that only its owner changes. */
  predicate SameShape(r: ScopeRec, r': ScopeRec) {
    && r'.body == r.body && r'.nb == r.nb && r'.drained == r.drained && r'.released == r.released
  }

  predicate Effect(s: State, s': State, w: Worker, t: TaskId) {
    && s'.workers.Keys == s.workers.Keys
    && (forall v <- s.workers :: v != w ==> s'.workers[v] == s.workers[v])
    && (forall u <- s.tasks :: u in s'.tasks && (u != t ==> s'.tasks[u] == s.tasks[u]))
    && (forall g <- s.scopes ::
          && g in s'.scopes
          && s'.scopes[g].parent == s.scopes[g].parent && s'.scopes[g].owner == s.scopes[g].owner
          && (s.scopes[g].owner != t ==> SameShape(s.scopes[g], s'.scopes[g]))
          && (s.scopes[g].fired ==> s'.scopes[g].fired && s'.scopes[g].firer == s.scopes[g].firer)
          && (s.scopes[g].fired && s.scopes[g].firer != t ==> s'.scopes[g].put == s.scopes[g].put))
  }

  lemma OtherTaskKept(s: State, s': State, w: Worker, t: TaskId, u: TaskId)
    requires Effect(s, s', w, t) && u in s.tasks && u != t && TaskInv(s, u)
    requires s.tasks[u].worker == Some(w) && w in s.workers && w in s'.workers ==>
               (u in s.workers[w].frames ==> u in s'.workers[w].frames)
    ensures TaskInv(s', u)
  {
  }

  lemma OtherWorkerKept(s: State, s': State, w: Worker, t: TaskId, v: Worker)
    requires Effect(s, s', w, t) && v in s.workers && v != w && WorkerInv(s, v)
    requires t in s.workers[v].frames ==> s'.tasks[t] == s.tasks[t]
    ensures WorkerInv(s', v)
  {
  }

  /** Same record, same members, and the acting task still accounts for it. */
  predicate ScopeSame(s: State, s': State, t: TaskId, g: Scope)
    requires g in s.scopes
  {
    && g in s'.scopes && s'.scopes[g] == s.scopes[g]
    && LiveTasks(s', g) == LiveTasks(s, g) && OpenKids(s', g) == OpenKids(s, g)
    && (t in s.tasks ==>
          && t in s'.tasks
          && (g in s.tasks[t].stack && !s.scopes[g].released ==> g in s'.tasks[t].stack)
          && (s.tasks[t].putting == Some(g) && !s.scopes[g].put ==> s'.tasks[t].putting == Some(g)))
  }

  lemma ScopeKept(s: State, s': State, w: Worker, t: TaskId, g: Scope)
    requires Effect(s, s', w, t) && g in s.scopes && ScopeInv(s, g) && ScopeSame(s, s', t, g)
    ensures ScopeInv(s', g)
  {
  }

  /** A step of `t` on `w` that touches only the scopes `fs` and the tasks `ts`. */
  ghost predicate Touches(s: State, s': State, w: Worker, t: TaskId, fs: set<Scope>, ts: set<TaskId>) {
    && Effect(s, s', w, t)
    && ScopesInOrder(s, s', t, fs)
    && TasksInOrder(s, s', w, t, ts)
    && WorkersInOrder(s, s', w, t)
  }

  ghost predicate ScopesInOrder(s: State, s': State, t: TaskId, fs: set<Scope>) {
    && s'.scopes.Keys <= s.scopes.Keys + fs
    && (forall g <- fs :: g in s'.scopes && ScopeInv(s', g))
    && (forall g <- s.scopes :: g !in fs ==> ScopeSame(s, s', t, g))
  }

  ghost predicate TasksInOrder(s: State, s': State, w: Worker, t: TaskId, ts: set<TaskId>) {
    && t in ts && s'.tasks.Keys <= s.tasks.Keys + ts
    && (forall u <- ts :: u in s'.tasks && TaskInv(s', u))
    && (forall u <- s.tasks :: u !in ts && w in s.workers && u in s.workers[w].frames ==>
          w in s'.workers && u in s'.workers[w].frames)
  }

  ghost predicate WorkersInOrder(s: State, s': State, w: Worker, t: TaskId) {
    && w in s'.workers && WorkerInv(s', w)
    && t in s.tasks && (s.tasks[t].pc.Queued? || s.tasks[t].worker == Some(w))
  }

  lemma InvTouches(s: State, s': State, w: Worker, t: TaskId, fs: set<Scope>, ts: set<TaskId>)
    requires Inv(s) && Touches(s, s', w, t, fs, ts)
    ensures Inv(s')
  {
    forall g <- s'.scopes
      ensures ScopeInv(s', g)
    {
      if g !in fs {
        ScopeKept(s, s', w, t, g);
      }
    }
    forall u <- s'.tasks
      ensures TaskInv(s', u)
    {
      if u !in ts {
        OtherTaskKept(s, s', w, t, u);
      }
    }
    forall v <- s'.workers
      ensures WorkerInv(s', v)
    {
      if v != w {
        OtherWorkerKept(s, s', w, t, v);
      }
    }
  }

  // ---------------------------------------------------------------------
  // Steps that leave every counter alone
  // ---------------------------------------------------------------------

  /** Nobody checked in or out. */
  predicate SameMembers(s: State, s': State) {
    && s'.tasks.Keys == s.tasks.Keys && s'.scopes.Keys == s.scopes.Keys
    && (forall u <- s.tasks :: s'.tasks[u].fin == s.tasks[u].fin && s'.tasks[u].out == s.tasks[u].out)
    && (forall g <- s.scopes ::
          s'.scopes[g].parent == s.scopes[g].parent && s'.scopes[g].released == s.scopes[g].released)
  }

  lemma SameMembersSameSets(s: State, s': State, g: Scope)
    requires SameMembers(s, s')
    ensures LiveTasks(s', g) == LiveTasks(s, g) && OpenKids(s', g) == OpenKids(s, g)
  {
  }

  lemma QuietScopes(s: State, s': State, t: TaskId, fs: set<Scope>)
    requires SameMembers(s, s') && t in s.tasks
    requires forall g <- fs :: g in s'.scopes && ScopeInv(s', g)
    requires forall g <- s.scopes :: g !in fs ==>
               && s'.scopes[g] == s.scopes[g]
               && (g in s.tasks[t].stack && !s.scopes[g].released ==> g in s'.tasks[t].stack)
               && (s.tasks[t].putting == Some(g) && !s.scopes[g].put ==> s'.tasks[t].putting == Some(g))
    ensures ScopesInOrder(s, s', t, fs)
  {
    forall g <- s.scopes
      ensures LiveTasks(s', g) == LiveTasks(s, g) && OpenKids(s', g) == OpenKids(s, g)
    {
      SameMembersSameSets(s, s', g);
    }
  }

  /** A worker is content with a new state of its top task that is inside the runtime. */
  lemma TopMoved(s: State, s': State, w: Worker, t: TaskId)
    requires Runs(s, w, t) && WorkerInv(s, w) && w in s'.workers && s'.workers[w] == s.workers[w]
    requires forall u <- s.tasks :: u in s'.tasks && (u != t ==> s'.tasks[u] == s.tasks[u])
    requires s'.tasks[t].worker == s.tasks[t].worker
    requires var pc := s'.tasks[t].pc;
             pc != Body && !pc.Queued? && !pc.Done?
    ensures WorkerInv(s', w)
  {
  }

  /** Rewriting a scope `f` owned by `t` and `t` itself is a step of `t`. */
  lemma OwnScopeEffect(s: State, w: Worker, t: TaskId, r: TaskRec, f: Scope, q: ScopeRec)
    requires t in s.tasks && f in s.scopes && s.scopes[f].owner == t
    requires q.parent == s.scopes[f].parent && q.owner == t
    requires s.scopes[f].fired ==> q.fired && q.firer == s.scopes[f].firer
    requires q.put == s.scopes[f].put
    ensures Effect(s, SetTask(s.(scopes := s.scopes[f := q]), t, r), w, t)
  {
  }

  lemma PcStepEffect(s: State, w: Worker, t: TaskId, r: TaskRec)
    requires t in s.tasks
    ensures Effect(s, SetTask(s, t, r), w, t)
  {
  }

  /** The task `t` on top of `w` goes on at `pc`. */
  lemma PcStepTouches(s: State, w: Worker, t: TaskId, pc: Pc)
    requires Runs(s, w, t) && TaskInv(s, t) && WorkerInv(s, w)
    requires s.tasks[t].putting == None && pc != Body && !pc.Queued? && !pc.Done?
    requires PcInv(s.scopes, t, s.tasks[t].(pc := pc))
    ensures Touches(s, SetTask(s, t, s.tasks[t].(pc := pc)), w, t, {}, {t})
  {
    var s' := SetTask(s, t, s.tasks[t].(pc := pc));
    QuietScopes(s, s', t, {});
    PcStepEffect(s, w, t, s'.tasks[t]);
    TopMoved(s, s', w, t);
    assert TaskInv(s', t);
  }

  lemma EndFinishTouches(s: State, w: Worker)
    requires Enabled(s, EndFinish(w)) && TaskInv(s, Top(s, w)) && WorkerInv(s, w)
    ensures Touches(s, Step(s, EndFinish(w)), w, Top(s, w), {}, {Top(s, w)})
  {
    PcStepTouches(s, w, Top(s, w), Helping(s.workers[w].cur.value));
  }

  lemma ReturnTouches(s: State, w: Worker)
    requires Enabled(s, Return(w)) && TaskInv(s, Top(s, w)) && WorkerInv(s, w)
    ensures Touches(s, Step(s, Return(w)), w, Top(s, w), {}, {Top(s, w)})
  {
    PcStepTouches(s, w, Top(s, w), Ending);
  }

  lemma WaitTouches(s: State, w: Worker)
    requires Enabled(s, Wait(w)) && TaskInv(s, Top(s, w)) && WorkerInv(s, w)
    ensures Touches(s, Step(s, Wait(w)), w, Top(s, w), {}, {Top(s, w)})
  {
    PcStepTouches(s, w, Top(s, w), Waiting(s.workers[w].cur));
  }

  /** A change of counters, deps and puts only. */
  predicate SameShapes(scopes: Scopes, scopes': Scopes) {
    forall g <- scopes ::
      && g in scopes'
      && scopes'[g].parent == scopes[g].parent && scopes'[g].owner == scopes[g].owner
      && SameShape(scopes[g], scopes'[g])
  }

  lemma ShapeKept(scopes: Scopes, scopes': Scopes, t: TaskId, r: TaskRec)
    requires SameShapes(scopes, scopes')
    requires StackInv(scopes, t, r.fin, r.stack) && PcInv(scopes, t, r)
    ensures StackInv(scopes', t, r.fin, r.stack) && PcInv(scopes', t, r)
  {
  }

  /** Rewriting the innermost scope of `t`, within its shape below, keeps the stack in order. */
  lemma StackMarked(scopes: Scopes, t: TaskId, fin: Option<Scope>, stack: seq<Scope>, f: Scope, q: ScopeRec)
    requires StackInv(scopes, t, fin, stack) && stack != [] && stack[|stack| - 1] == f
    requires q.owner == scopes[f].owner && q.parent == scopes[f].parent
    ensures StackInv(scopes[f := q], t, fin, stack)
  {
  }

  /** The task `t` on top of `w` marks its innermost scope `f` with `q` and goes on at `pc`. */
  /** `f` with new marks; what they claim of the scope is true. */
  predicate MarkedAs(s: State, f: Scope, q: ScopeRec)
    requires f in s.scopes
  {
    && q == s.scopes[f].(dep := q.dep, nb := q.nb, drained := q.drained)
    && (!q.body ==> q.nb) && (q.nb ==> q.dep) && (q.released ==> q.drained || q.nb)
    && (q.drained ==> !q.nb && LiveTasks(s, f) == {} && OpenKids(s, f) == {})
  }

  lemma MarkTouches(s: State, w: Worker, t: TaskId, f: Scope, q: ScopeRec, pc: Pc)
    requires Runs(s, w, t) && TaskInv(s, t) && WorkerInv(s, w)
    requires s.tasks[t].putting == None && pc != Body && !pc.Queued? && !pc.Done?
    requires Current(s.tasks[t]) == Some(f) && s.tasks[t].stack != [] && ScopeInv(s, f) && MarkedAs(s, f, q)
    requires PcInv(s.scopes[f := q], t, s.tasks[t].(pc := pc))
    ensures Touches(s, SetTask(s.(scopes := s.scopes[f := q]), t, s.tasks[t].(pc := pc)), w, t, {f}, {t})
  {
    var s' := SetTask(s.(scopes := s.scopes[f := q]), t, s.tasks[t].(pc := pc));
    MarkScopes(s, s', t, f, q);
    MarkEffect(s, w, t, f, q, pc);
    MarkTask(s, s', t, f, q);
    AssembleTouches(s, s', w, t, f);
  }

  lemma MarkEffect(s: State, w: Worker, t: TaskId, f: Scope, q: ScopeRec, pc: Pc)
    requires Runs(s, w, t) && TaskInv(s, t) && WorkerInv(s, w)
    requires pc != Body && !pc.Queued? && !pc.Done?
    requires Current(s.tasks[t]) == Some(f) && s.tasks[t].stack != [] && f in s.scopes && MarkedAs(s, f, q)
    ensures var s' := SetTask(s.(scopes := s.scopes[f := q]), t, s.tasks[t].(pc := pc));
            Effect(s, s', w, t) && WorkerInv(s', w)
    ensures s.tasks[t].worker == Some(w)
  {
    var s' := SetTask(s.(scopes := s.scopes[f := q]), t, s.tasks[t].(pc := pc));
    OwnScopeEffect(s, w, t, s'.tasks[t], f, q);
    TopMoved(s, s', w, t);
  }

  /** The parts of Touches for a step on the scope and the task alone. */
  lemma AssembleTouches(s: State, s': State, w: Worker, t: TaskId, f: Scope)
    requires Effect(s, s', w, t) && ScopesInOrder(s, s', t, {f})
    requires t in s.tasks && s'.tasks.Keys == s.tasks.Keys && TaskInv(s', t)
    requires w in s.workers && w in s'.workers && s'.workers[w] == s.workers[w] && WorkerInv(s', w)
    requires s.tasks[t].pc.Queued? || s.tasks[t].worker == Some(w)
    ensures Touches(s, s', w, t, {f}, {t})
  {
  }

  lemma MarkedScope(s: State, s': State, t: TaskId, f: Scope, q: ScopeRec)
    requires t in s.tasks && f in s.scopes && ScopeInv(s, f) && MarkedAs(s, f, q)
    requires t in s'.tasks && s' == SetTask(s.(scopes := s.scopes[f := q]), t, s.tasks[t].(pc := s'.tasks[t].pc))
    ensures ScopeInv(s', f)
  {
    SameMembersSameSets(s, s', f);
  }

  lemma MarkScopes(s: State, s': State, t: TaskId, f: Scope, q: ScopeRec)
    requires t in s.tasks && f in s.scopes && ScopeInv(s, f) && MarkedAs(s, f, q)
    requires t in s'.tasks && s' == SetTask(s.(scopes := s.scopes[f := q]), t, s.tasks[t].(pc := s'.tasks[t].pc))
    ensures ScopesInOrder(s, s', t, {f})
  {
    MarkedScope(s, s', t, f, q);
    QuietScopes(s, s', t, {f});
  }

  lemma MarkTask(s: State, s': State, t: TaskId, f: Scope, q: ScopeRec)
    requires t in s.tasks && TaskInv(s, t) && s.tasks[t].putting == None
    requires Current(s.tasks[t]) == Some(f) && s.tasks[t].stack != []
    requires q.owner == s.scopes[f].owner && q.parent == s.scopes[f].parent
    requires t in s'.tasks && s' == SetTask(s.(scopes := s.scopes[f := q]), t, s.tasks[t].(pc := s'.tasks[t].pc))
    requires !s.tasks[t].pc.Queued? && !s.tasks[t].pc.Done?
    requires PcInv(s'.scopes, t, s'.tasks[t])
    ensures TaskInv(s', t)
  {
    StackMarked(s.scopes, t, s.tasks[t].fin, s.tasks[t].stack, f, q);
  }

  lemma EndNonblockingTouches(s: State, w: Worker)
    requires Enabled(s, EndFinishNonblocking(w)) && TaskInv(s, Top(s, w)) && WorkerInv(s, w)
    requires ScopeInv(s, s.workers[w].cur.value)
    ensures Touches(s, Step(s, EndFinishNonblocking(w)), w, Top(s, w), {s.workers[w].cur.value}, {Top(s, w)})
  {
    var f := s.workers[w].cur.value;
    MarkTouches(s, w, Top(s, w), f, s.scopes[f].(dep := true, nb := true), NbSelf(f));
  }

  /** The counter at one means the body is alone. */
  lemma OneMeansAlone(s: State, f: Scope)
    requires f in s.scopes && ScopeInv(s, f) && s.scopes[f].body && s.scopes[f].counter == 1
    ensures LiveTasks(s, f) == {} && OpenKids(s, f) == {}
  {
  }

  lemma HelpTouches(s: State, w: Worker, t: TaskId, f: Scope)
    requires Runs(s, w, t) && TaskInv(s, t) && WorkerInv(s, w) && s.tasks[t].pc == Helping(f)
    requires f in s.scopes && ScopeInv(s, f) && s.scopes[f].counter == 1
    ensures Touches(s, Help(s, t, f), w, t, {f}, {t})
  {
    OneMeansAlone(s, f);
    MarkTouches(s, w, t, f, s.scopes[f].(drained := true), Leaving(f));
  }

  lemma PutTouches(s: State, w: Worker, t: TaskId, g: Scope)
    requires Runs(s, w, t) && TaskInv(s, t) && WorkerInv(s, w) && s.tasks[t].putting == Some(g)
    requires g in s.scopes && ScopeInv(s, g)
    ensures Touches(s, Put(s, t, g), w, t, {g}, {t})
  {
    var s' := Put(s, t, g);
    PutScopes(s, t, g);
    PutEffect(s, w, t, g);
    TopMoved(s, s', w, t);
    PutTask(s, t, g);
  }

  lemma PutEffect(s: State, w: Worker, t: TaskId, g: Scope)
    requires t in s.tasks && g in s.scopes && (s.scopes[g].fired ==> s.scopes[g].firer == t)
    ensures Effect(s, Put(s, t, g), w, t)
  {
  }

  lemma PutScopes(s: State, t: TaskId, g: Scope)
    requires t in s.tasks && s.tasks[t].putting == Some(g)
    requires g in s.scopes && ScopeInv(s, g) && s.scopes[g].fired
    ensures ScopesInOrder(s, Put(s, t, g), t, {g})
  {
    var s' := Put(s, t, g);
    SameMembersSameSets(s, s', g);
    QuietScopes(s, s', t, {g});
  }

  lemma PutTask(s: State, t: TaskId, g: Scope)
    requires t in s.tasks && TaskInv(s, t) && s.tasks[t].putting == Some(g)
    requires g in s.scopes
    ensures TaskInv(Put(s, t, g), t)
  {
    ShapeKept(s.scopes, Put(s, t, g).scopes, t, s.tasks[t]);
  }

  lemma RestoreTouches(s: State, w: Worker, t: TaskId, f: Scope)
    requires Runs(s, w, t) && TaskInv(s, t) && WorkerInv(s, w)
    requires s.tasks[t].pc == Restoring(f) && s.tasks[t].putting == None
    ensures f in s.scopes && s.tasks[t].stack != []
    ensures Touches(s, Restore(s, w, t, f), w, t, {}, {t})
  {
    RestoreEffect(s, w, t, f);
    RestoreScopes(s, w, t, f);
    RestoreTask(s, w, t, f);
    var stack := s.tasks[t].stack;
    assert s.scopes[f].parent == ParentIn(s.tasks[t].fin, stack, |stack| - 1);
    RestoreWorker(s, w, t, f);
  }

  lemma RestoreEffect(s: State, w: Worker, t: TaskId, f: Scope)
    requires w in s.workers && t in s.tasks && f in s.scopes && s.tasks[t].stack != []
    ensures Effect(s, Restore(s, w, t, f), w, t)
  {
  }

  lemma RestoreScopes(s: State, w: Worker, t: TaskId, f: Scope)
    requires w in s.workers && t in s.tasks && f in s.scopes && s.tasks[t].stack != []
    requires Current(s.tasks[t]) == Some(f) && s.scopes[f].released
    ensures ScopesInOrder(s, Restore(s, w, t, f), t, {})
  {
    var s', stack := Restore(s, w, t, f), s.tasks[t].stack;
    assert forall g <- stack :: g == f || g in stack[..|stack| - 1];
    QuietScopes(s, s', t, {});
  }

  lemma RestoreTask(s: State, w: Worker, t: TaskId, f: Scope)
    requires w in s.workers && t in s.tasks && TaskInv(s, t)
    requires s.tasks[t].pc == Restoring(f) && s.tasks[t].putting == None
    ensures f in s.scopes && s.tasks[t].stack != []
    ensures TaskInv(Restore(s, w, t, f), t)
  {
    var stack := s.tasks[t].stack;
    StackPop(s.scopes, t, s.tasks[t].fin, stack);
  }

  lemma StackPop(scopes: Scopes, t: TaskId, fin: Option<Scope>, stack: seq<Scope>)
    requires StackInv(scopes, t, fin, stack) && stack != []
    ensures StackInv(scopes, t, fin, stack[..|stack| - 1])
  {
    var below := stack[..|stack| - 1];
    forall i {:trigger ParentIn(fin, below, i)} | 0 <= i < |below|
      ensures scopes[below[i]].parent == ParentIn(fin, below, i)
    {
      assert ParentIn(fin, below, i) == ParentIn(fin, stack, i);
    }
  }

  lemma RestoreWorker(s: State, w: Worker, t: TaskId, f: Scope)
    requires Runs(s, w, t) && WorkerInv(s, w)
    requires s.tasks[t].stack != [] && f in s.scopes
    requires s.scopes[f].parent == ParentIn(s.tasks[t].fin, s.tasks[t].stack, |s.tasks[t].stack| - 1)
    ensures WorkerInv(Restore(s, w, t, f), w)
  {
  }

  lemma ResumeTouches(s: State, w: Worker, t: TaskId)
    requires Runs(s, w, t) && TaskInv(s, t) && WorkerInv(s, w) && s.tasks[t].pc.Waiting?
    ensures Touches(s, Resume(s, w, t, s.tasks[t].pc.saved), w, t, {}, {t})
  {
    var saved := s.tasks[t].pc.saved;
    var s' := Resume(s, w, t, saved);
    QuietScopes(s, s', t, {});
    ResumeEffect(s, w, t, saved);
    ResumeTask(s, w, t);
    ResumeWorker(s, w, t);
  }

  lemma ResumeEffect(s: State, w: Worker, t: TaskId, saved: Option<Scope>)
    requires w in s.workers && t in s.tasks
    ensures Effect(s, Resume(s, w, t, saved), w, t)
  {
  }

  lemma ResumeTask(s: State, w: Worker, t: TaskId)
    requires w in s.workers && t in s.tasks && TaskInv(s, t) && s.tasks[t].pc.Waiting?
    ensures TaskInv(Resume(s, w, t, s.tasks[t].pc.saved), t)
  {
  }

  lemma ResumeWorker(s: State, w: Worker, t: TaskId)
    requires Runs(s, w, t) && TaskInv(s, t) && WorkerInv(s, w) && s.tasks[t].pc.Waiting?
    ensures WorkerInv(Resume(s, w, t, s.tasks[t].pc.saved), w)
  {
  }

  lemma PopFrameTouches(s: State, w: Worker, t: TaskId)
    requires Runs(s, w, t) && TaskInv(s, t) && WorkerInv(s, w)
    requires s.tasks[t].pc == Ended && s.tasks[t].putting == None
    ensures Touches(s, PopFrame(s, w, t), w, t, {}, {t})
  {
    var s' := PopFrame(s, w, t);
    QuietScopes(s, s', t, {});
    PopFrameEffect(s, w, t);
    PopFrameTask(s, w, t);
    PopFrameWorker(s, w, t);
  }

  lemma PopFrameEffect(s: State, w: Worker, t: TaskId)
    requires w in s.workers && t in s.tasks && s.workers[w].frames != []
    ensures Effect(s, PopFrame(s, w, t), w, t)
  {
  }

  lemma PopFrameTask(s: State, w: Worker, t: TaskId)
    requires Runs(s, w, t) && TaskInv(s, t) && WorkerInv(s, w)
    requires s.tasks[t].pc == Ended && s.tasks[t].putting == None
    ensures TasksInOrder(s, PopFrame(s, w, t), w, t, {t})
  {
  }

  lemma PopFrameWorker(s: State, w: Worker, t: TaskId)
    requires Runs(s, w, t) && WorkerInv(s, w)
    ensures WorkerInv(PopFrame(s, w, t), w)
  {
    var frames := s.workers[w].frames;
    if |frames| > 1 {
      assert LetsOthersRun(s.tasks[frames[|frames| - 2]].pc);
    }
  }

  lemma ExecuteTouches(s: State, w: Worker, t: TaskId)
    requires Enabled(s, Execute(w, t)) && TaskInv(s, t) && WorkerInv(s, w)
    ensures Touches(s, Step(s, Execute(w, t)), w, t, {}, {t})
  {
    var s' := Step(s, Execute(w, t));
    QuietScopes(s, s', t, {});
    ExecuteEffect(s, w, t);
    ExecuteWorker(s, w, t);
  }

  lemma ExecuteEffect(s: State, w: Worker, t: TaskId)
    requires Enabled(s, Execute(w, t)) && TaskInv(s, t)
    ensures Effect(s, Step(s, Execute(w, t)), w, t)
    ensures TaskInv(Step(s, Execute(w, t)), t)
  {
  }

  lemma ExecuteWorker(s: State, w: Worker, t: TaskId)
    requires Enabled(s, Execute(w, t)) && WorkerInv(s, w) && s.tasks[t].stack == []
    ensures WorkerInv(Step(s, Execute(w, t)), w)
  {
  }

  // ---------------------------------------------------------------------
  // Steps that check in or out
  // ---------------------------------------------------------------------

  lemma SameTasks(s: State, s': State, g: Scope)
    requires s'.tasks.Keys == s.tasks.Keys
    requires forall u <- s.tasks :: s'.tasks[u].fin == s.tasks[u].fin && s'.tasks[u].out == s.tasks[u].out
    ensures LiveTasks(s', g) == LiveTasks(s, g)
  {
  }

  lemma TaskJoins(s: State, s': State, t: TaskId, g: Scope)
    requires t !in s.tasks && t in s'.tasks && s'.tasks == s.tasks[t := s'.tasks[t]] && !s'.tasks[t].out
    ensures LiveTasks(s', g) == LiveTasks(s, g) + if s'.tasks[t].fin == Some(g) then {t} else {}
  {
  }

  lemma TaskLeaves(s: State, s': State, t: TaskId, g: Scope)
    requires t in s.tasks && t in s'.tasks && s'.tasks == s.tasks[t := s'.tasks[t]]
    requires s'.tasks[t].fin == s.tasks[t].fin && s'.tasks[t].out
    ensures LiveTasks(s', g) == LiveTasks(s, g) - if s.tasks[t].fin == Some(g) then {t} else {}
  {
  }

  predicate SameKid(r: ScopeRec, r': ScopeRec) {
    r'.parent == r.parent && r'.released == r.released
  }

  lemma SameKids(s: State, s': State, g: Scope)
    requires s'.scopes.Keys == s.scopes.Keys
    requires forall h <- s.scopes :: SameKid(s.scopes[h], s'.scopes[h])
    ensures OpenKids(s', g) == OpenKids(s, g)
  {
  }

  lemma KidJoins(s: State, s': State, f: Scope, g: Scope)
    requires f !in s.scopes && s'.scopes.Keys == s.scopes.Keys + {f} && !s'.scopes[f].released
    requires forall h <- s.scopes :: SameKid(s.scopes[h], s'.scopes[h])
    ensures OpenKids(s', g) == OpenKids(s, g) + if s'.scopes[f].parent == Some(g) then {f} else {}
  {
  }

  lemma KidLeaves(s: State, s': State, f: Scope, g: Scope)
    requires f in s.scopes && s'.scopes.Keys == s.scopes.Keys
    requires s'.scopes[f].parent == s.scopes[f].parent && s'.scopes[f].released
    requires forall h <- s.scopes :: h != f ==> SameKid(s.scopes[h], s'.scopes[h])
    ensures OpenKids(s', g) == OpenKids(s, g) - if s.scopes[f].parent == Some(g) then {f} else {}
  {
  }

  function AsSet(f: Option<Scope>): set<Scope> {
    if f.Some? then {f.value} else {}
  }

  /** The scope around running code has tokens left, so checking in never starts from zero. */
  lemma CurrentIsAlive(s: State, w: Worker, f: Scope)
    requires InBody(s, w) && s.workers[w].cur == Some(f)
    requires TaskInv(s, Top(s, w)) && WorkerInv(s, w) && ScopeInv(s, f)
    ensures s.scopes[f].counter > 0 && !s.scopes[f].drained && !s.scopes[f].fired
  {
    var t := Top(s, w);
    if s.tasks[t].stack == [] {
      assert t in LiveTasks(s, f);
    }
  }

  /** A scope with tokens left takes one more. */
  lemma TokenAdded(s: State, s': State, f: Scope)
    requires f in s.scopes && f in s'.scopes && ScopeInv(s, f)
    requires s'.scopes[f] == s.scopes[f].(counter := s.scopes[f].counter + 1)
    requires s.scopes[f].counter > 0 && !s.scopes[f].drained
    requires |LiveTasks(s', f)| + |OpenKids(s', f)| == |LiveTasks(s, f)| + |OpenKids(s, f)| + 1
    requires s.scopes[f].parent.Some? ==> s.scopes[f].parent.value in s'.scopes
    requires var o := s.scopes[f].owner;
             o in s'.tasks && (f in s.tasks[o].stack ==> f in s'.tasks[o].stack)
    ensures ScopeInv(s', f)
  {
  }

  /** A scope gives up a token; whoever takes the last one owes the put. */
  lemma TokenRemoved(s: State, s': State, f: Scope, t: TaskId)
    requires f in s.scopes && f in s'.scopes && ScopeInv(s, f)
    requires s'.scopes[f] == CheckOut(s.scopes, Some(f), t)[f].(body := s'.scopes[f].body)
    requires (if s'.scopes[f].body then 1 else 0) + |LiveTasks(s', f)| + |OpenKids(s', f)| == s.scopes[f].counter - 1
    requires !s'.scopes[f].body ==> s.scopes[f].nb
    requires !s.scopes[f].drained
    requires t in s'.tasks && (s.scopes[f].counter == 1 ==> s'.tasks[t].putting == Some(f))
    requires s.scopes[f].parent.Some? ==> s.scopes[f].parent.value in s'.scopes
    requires var o := s.scopes[f].owner;
             o in s'.tasks && (f in s.tasks[o].stack ==> f in s'.tasks[o].stack)
    ensures ScopeInv(s', f)
  {
  }

  /** Spawning registers the new task on the current scope. */
  lemma SpawnOn(s: State, a: Action, f: Scope)
    requires Enabled(s, a) && a.Spawn? && !a.escaping && s.workers[a.w].cur == Some(f)
    requires ScopeInv(s, f) && s.scopes[f].counter > 0 && !s.scopes[f].drained
    ensures ScopeInv(Step(s, a), f)
  {
    var s' := Step(s, a);
    TaskJoins(s, s', a.t, f);
    SameKids(s, s', f);
    TokenAdded(s, s', f);
  }

  lemma SpawnElsewhere(s: State, a: Action, g: Scope)
    requires Enabled(s, a) && a.Spawn? && g in s.scopes
    requires a.escaping || s.workers[a.w].cur != Some(g)
    ensures ScopeSame(s, Step(s, a), Top(s, a.w), g)
  {
    TaskJoins(s, Step(s, a), a.t, g);
    SameKids(s, Step(s, a), g);
  }

  lemma SpawnScopes(s: State, a: Action)
    requires Enabled(s, a) && a.Spawn?
    requires var fin := if a.escaping then None else s.workers[a.w].cur;
             fin.Some? ==>
               var f := fin.value;
               ScopeInv(s, f) && s.scopes[f].counter > 0 && !s.scopes[f].drained
    ensures ScopesInOrder(s, Step(s, a), Top(s, a.w), AsSet(if a.escaping then None else s.workers[a.w].cur))
  {
    var fin := if a.escaping then None else s.workers[a.w].cur;
    if fin.Some? {
      SpawnOn(s, a, fin.value);
    }
    forall g <- s.scopes | g !in AsSet(fin)
      ensures ScopeSame(s, Step(s, a), Top(s, a.w), g)
    {
      SpawnElsewhere(s, a, g);
    }
  }

  lemma SpawnEffect(s: State, a: Action)
    requires Enabled(s, a) && a.Spawn?
    ensures Effect(s, Step(s, a), a.w, Top(s, a.w))
    ensures SameShapes(s.scopes, Step(s, a).scopes)
  {
  }

  lemma SpawnParentTask(s: State, a: Action)
    requires Enabled(s, a) && a.Spawn? && TaskInv(s, Top(s, a.w))
    ensures Top(s, a.w) in Step(s, a).tasks && TaskInv(Step(s, a), Top(s, a.w))
  {
    SpawnEffect(s, a);
    ShapeKept(s.scopes, Step(s, a).scopes, Top(s, a.w), s.tasks[Top(s, a.w)]);
  }

  lemma SpawnNewTask(s: State, a: Action)
    requires Enabled(s, a) && a.Spawn?
    ensures a.t in Step(s, a).tasks && TaskInv(Step(s, a), a.t)
  {
  }

  lemma SpawnWorker(s: State, a: Action)
    requires Enabled(s, a) && a.Spawn? && WorkerInv(s, a.w)
    ensures WorkerInv(Step(s, a), a.w)
  {
  }

  lemma SpawnTasks(s: State, a: Action)
    requires Enabled(s, a) && a.Spawn? && TaskInv(s, Top(s, a.w))
    ensures TasksInOrder(s, Step(s, a), a.w, Top(s, a.w), {Top(s, a.w), a.t})
  {
    SpawnParentTask(s, a);
    SpawnNewTask(s, a);
  }

  lemma SpawnTouches(s: State, a: Action)
    requires Enabled(s, a) && a.Spawn? && TaskInv(s, Top(s, a.w)) && WorkerInv(s, a.w)
    requires s.workers[a.w].cur.Some? ==> ScopeInv(s, s.workers[a.w].cur.value)
    ensures Touches(s, Step(s, a), a.w, Top(s, a.w),
                    AsSet(if a.escaping then None else s.workers[a.w].cur), {Top(s, a.w), a.t})
  {
    if !a.escaping && s.workers[a.w].cur.Some? {
      CurrentIsAlive(s, a.w, s.workers[a.w].cur.value);
    }
    SpawnEffect(s, a);
    SpawnScopes(s, a);
    SpawnTasks(s, a);
    SpawnWorker(s, a);
  }

  /** Opening a scope checks it in with its parent. */
  lemma StartCounts(s: State, a: Action, p: Scope)
    requires Enabled(s, a) && a.StartFinish? && s.workers[a.w].cur == Some(p)
    ensures |LiveTasks(Step(s, a), p)| + |OpenKids(Step(s, a), p)| == |LiveTasks(s, p)| + |OpenKids(s, p)| + 1
  {
    var s' := Step(s, a);
    SameTasks(s, s', p);
    KidJoins(s, s', a.f, p);
    assert a.f !in OpenKids(s, p);
  }

  lemma StartParent(s: State, a: Action, p: Scope)
    requires Enabled(s, a) && a.StartFinish? && s.workers[a.w].cur == Some(p)
    requires ScopeInv(s, p) && s.scopes[p].counter > 0 && !s.scopes[p].drained
    ensures ScopeInv(Step(s, a), p)
  {
    StartCounts(s, a, p);
    TokenAdded(s, Step(s, a), p);
  }

  lemma StartElsewhere(s: State, a: Action, g: Scope)
    requires Enabled(s, a) && a.StartFinish? && g in s.scopes && s.workers[a.w].cur != Some(g)
    ensures ScopeSame(s, Step(s, a), Top(s, a.w), g)
  {
    SameTasks(s, Step(s, a), g);
    KidJoins(s, Step(s, a), a.f, g);
  }

  /** Nothing refers to a scope that does not exist yet. */
  lemma StartFresh(s: State, a: Action)
    requires Enabled(s, a) && a.StartFinish?
    requires forall u <- s.tasks :: s.tasks[u].fin != Some(a.f)
    requires forall g <- s.scopes :: s.scopes[g].parent != Some(a.f)
    ensures ScopeInv(Step(s, a), a.f)
  {
    var s' := Step(s, a);
    SameTasks(s, s', a.f);
    KidJoins(s, s', a.f, a.f);
    assert LiveTasks(s, a.f) == {} && OpenKids(s, a.f) == {};
  }

  lemma StartScopes(s: State, a: Action)
    requires Enabled(s, a) && a.StartFinish?
    requires s.workers[a.w].cur.Some? ==>
               var p := s.workers[a.w].cur.value;
               ScopeInv(s, p) && s.scopes[p].counter > 0 && !s.scopes[p].drained
    requires forall u <- s.tasks :: s.tasks[u].fin != Some(a.f)
    requires forall g <- s.scopes :: s.scopes[g].parent != Some(a.f)
    ensures ScopesInOrder(s, Step(s, a), Top(s, a.w), AsSet(s.workers[a.w].cur) + {a.f})
  {
    var cur := s.workers[a.w].cur;
    if cur.Some? {
      StartParent(s, a, cur.value);
    }
    StartFresh(s, a);
    forall g <- s.scopes | g !in AsSet(cur)
      ensures ScopeSame(s, Step(s, a), Top(s, a.w), g)
    {
      StartElsewhere(s, a, g);
    }
  }

  lemma StartEffect(s: State, a: Action)
    requires Enabled(s, a) && a.StartFinish?
    ensures Effect(s, Step(s, a), a.w, Top(s, a.w))
    ensures SameShapes(s.scopes, Step(s, a).scopes)
  {
  }

  lemma StartTask(s: State, a: Action)
    requires Enabled(s, a) && a.StartFinish? && TaskInv(s, Top(s, a.w)) && WorkerInv(s, a.w)
    ensures TaskInv(Step(s, a), Top(s, a.w))
  {
    var s', t := Step(s, a), Top(s, a.w);
    var r := s.tasks[t];
    StartEffect(s, a);
    ShapeKept(s.scopes, s'.scopes, t, r);
    StackPush(s'.scopes, t, r.fin, r.stack, a.f);
  }

  lemma StackPush(scopes: Scopes, t: TaskId, fin: Option<Scope>, stack: seq<Scope>, f: Scope)
    requires StackInv(scopes, t, fin, stack) && f !in stack && fin != Some(f) && Open(scopes, t, f)
    requires stack != [] ==> Open(scopes, t, stack[|stack| - 1])
    requires scopes[f].parent == if stack == [] then fin else Some(stack[|stack| - 1])
    ensures StackInv(scopes, t, fin, stack + [f])
  {
    var stack' := stack + [f];
    forall i {:trigger ParentIn(fin, stack', i)} | 0 <= i < |stack'|
      ensures scopes[stack'[i]].parent == ParentIn(fin, stack', i)
    {
      if i < |stack| {
        assert ParentIn(fin, stack', i) == ParentIn(fin, stack, i);
      }
    }
  }

  lemma StartWorker(s: State, a: Action)
    requires Enabled(s, a) && a.StartFinish? && WorkerInv(s, a.w)
    ensures WorkerInv(Step(s, a), a.w)
  {
  }

  lemma StartTouches(s: State, a: Action)
    requires Enabled(s, a) && a.StartFinish? && TaskInv(s, Top(s, a.w)) && WorkerInv(s, a.w)
    requires s.workers[a.w].cur.Some? ==> ScopeInv(s, s.workers[a.w].cur.value)
    requires forall u <- s.tasks :: s.tasks[u].fin != Some(a.f)
    requires forall g <- s.scopes :: s.scopes[g].parent != Some(a.f)
    ensures Touches(s, Step(s, a), a.w, Top(s, a.w), AsSet(s.workers[a.w].cur) + {a.f}, {Top(s, a.w)})
  {
    if s.workers[a.w].cur.Some? {
      CurrentIsAlive(s, a.w, s.workers[a.w].cur.value);
    }
    StartEffect(s, a);
    StartScopes(s, a);
    StartTask(s, a);
    StartWorker(s, a);
  }

  /** The body leaves a scope closed by the non-blocking end. */
  lemma DropBodyTouches(s: State, w: Worker, t: TaskId, f: Scope)
    requires Runs(s, w, t) && TaskInv(s, t) && WorkerInv(s, w)
    requires s.tasks[t].pc == NbSelf(f) && f in s.scopes && ScopeInv(s, f)
    ensures Touches(s, DropBody(s, t, f), w, t, {f}, {t})
  {
    var s' := DropBody(s, t, f);
    DropBodyScopes(s, t, f);
    assert s' == SetTask(s.(scopes := s.scopes[f := s'.scopes[f]]), t, s'.tasks[t]);
    OwnScopeEffect(s, w, t, s'.tasks[t], f, s'.scopes[f]);
    TopMoved(s, s', w, t);
    DropBodyTask(s, t, f);
  }

  lemma DropBodyScopes(s: State, t: TaskId, f: Scope)
    requires t in s.tasks && s.tasks[t].putting == None
    requires f in s.scopes && ScopeInv(s, f) && s.scopes[f].body && s.scopes[f].nb
    ensures ScopesInOrder(s, DropBody(s, t, f), t, {f})
  {
    var s' := DropBody(s, t, f);
    SameMembersSameSets(s, s', f);
    TokenRemoved(s, s', f, t);
    QuietScopes(s, s', t, {f});
  }

  lemma DropBodyTask(s: State, t: TaskId, f: Scope)
    requires t in s.tasks && TaskInv(s, t) && s.tasks[t].pc == NbSelf(f)
    requires f in s.scopes && ScopeInv(s, f)
    ensures TaskInv(DropBody(s, t, f), t)
  {
    var q := DropBody(s, t, f).scopes[f];
    StackMarked(s.scopes, t, s.tasks[t].fin, s.tasks[t].stack, f, q);
    assert DropBody(s, t, f).scopes == s.scopes[f := q];
  }

  /** Leaving a scope checks it out of its parent. */
  lemma ReleaseParent(s: State, t: TaskId, f: Scope, p: Scope)
    requires t in s.tasks && s.tasks[t].putting == None
    requires f in s.scopes && s.scopes[f].parent == Some(p) && !s.scopes[f].released && p != f
    requires p in s.scopes && ScopeInv(s, p)
    ensures ScopeInv(Release(s, t, f), p)
  {
    var s' := Release(s, t, f);
    SameTasks(s, s', p);
    KidLeaves(s, s', f, p);
    assert f in OpenKids(s, p);
    TokenRemoved(s, s', p, t);
  }

  lemma ReleaseSelf(s: State, t: TaskId, f: Scope)
    requires t in s.tasks && s.tasks[t].putting == None
    requires f in s.scopes && ScopeInv(s, f) && (s.scopes[f].drained || s.scopes[f].nb)
    requires s.scopes[f].parent.Some? ==> s.scopes[f].parent.value in s.scopes && s.scopes[f].parent.value != f
    requires s.scopes[f].owner == t
    requires s.scopes[f].fired && !s.scopes[f].put ==> s.scopes[f].firer != t
    ensures ScopeInv(Release(s, t, f), f)
  {
    var s' := Release(s, t, f);
    SameTasks(s, s', f);
    KidLeaves(s, s', f, f);
  }

  lemma ReleaseElsewhere(s: State, t: TaskId, f: Scope, g: Scope)
    requires t in s.tasks && s.tasks[t].putting == None
    requires f in s.scopes && (s.scopes[f].parent.Some? ==> s.scopes[f].parent.value in s.scopes)
    requires g in s.scopes && g != f && s.scopes[f].parent != Some(g)
    ensures ScopeSame(s, Release(s, t, f), t, g)
  {
    SameTasks(s, Release(s, t, f), g);
    KidLeaves(s, Release(s, t, f), f, g);
  }

  lemma ReleaseEffect(s: State, w: Worker, t: TaskId, f: Scope)
    requires t in s.tasks && f in s.scopes && s.scopes[f].owner == t
    requires s.scopes[f].parent.Some? ==>
               var p := s.scopes[f].parent.value;
               p in s.scopes && p != f && (s.scopes[p].fired ==> s.scopes[p].counter != 1)
    ensures Effect(s, Release(s, t, f), w, t)
  {
  }

  lemma ReleaseTask(s: State, t: TaskId, f: Scope)
    requires t in s.tasks && TaskInv(s, t) && s.tasks[t].pc == Leaving(f) && s.tasks[t].putting == None
    requires s.scopes[f].parent.Some? ==>
               var p := s.scopes[f].parent.value;
               p in s.scopes && p != f && ScopeInv(s, p)
    ensures TaskInv(Release(s, t, f), t)
  {
    var parent, r := s.scopes[f].parent, s.tasks[t];
    var scopes := CheckOut(s.scopes, parent, t);
    assert SameShapes(s.scopes, scopes);
    ShapeKept(s.scopes, scopes, t, r);
    StackMarked(scopes, t, r.fin, r.stack, f, scopes[f].(released := true));
  }

  lemma ReleaseScopes(s: State, t: TaskId, f: Scope)
    requires t in s.tasks && TaskInv(s, t) && s.tasks[t].pc == Leaving(f) && s.tasks[t].putting == None
    requires ScopeInv(s, f)
    requires s.scopes[f].parent.Some? ==>
               var p := s.scopes[f].parent.value;
               p in s.scopes && p != f && ScopeInv(s, p)
    ensures ScopesInOrder(s, Release(s, t, f), t, {f} + AsSet(s.scopes[f].parent))
  {
    var parent := s.scopes[f].parent;
    ReleaseSelf(s, t, f);
    if parent.Some? {
      ReleaseParent(s, t, f, parent.value);
    }
    forall g <- s.scopes | g != f && g !in AsSet(parent)
      ensures ScopeSame(s, Release(s, t, f), t, g)
    {
      ReleaseElsewhere(s, t, f, g);
    }
  }

  lemma ReleaseTouches(s: State, w: Worker, t: TaskId, f: Scope)
    requires Runs(s, w, t) && TaskInv(s, t) && WorkerInv(s, w)
    requires s.tasks[t].pc == Leaving(f) && s.tasks[t].putting == None && ScopeInv(s, f)
    requires s.scopes[f].parent.Some? ==>
               s.scopes[f].parent.value in s.scopes && ScopeInv(s, s.scopes[f].parent.value)
    ensures Touches(s, Release(s, t, f), w, t, {f} + AsSet(s.scopes[f].parent), {t})
  {
    var stack := s.tasks[t].stack;
    assert s.scopes[f].parent == ParentIn(s.tasks[t].fin, stack, |stack| - 1);
    ReleaseEffect(s, w, t, f);
    ReleaseScopes(s, t, f);
    ReleaseTask(s, t, f);
    TopMoved(s, Release(s, t, f), w, t);
  }

  /** A finished task checks out of the scope it was registered on. */
  lemma FinishOn(s: State, t: TaskId, f: Scope)
    requires t in s.tasks && s.tasks[t].putting == None && !s.tasks[t].out && s.tasks[t].fin == Some(f)
    requires f in s.scopes && ScopeInv(s, f)
    ensures ScopeInv(Finish(s, t), f)
  {
    var s' := Finish(s, t);
    TaskLeaves(s, s', t, f);
    SameKids(s, s', f);
    assert t in LiveTasks(s, f);
    TokenRemoved(s, s', f, t);
  }

  lemma FinishElsewhere(s: State, t: TaskId, g: Scope)
    requires t in s.tasks && s.tasks[t].putting == None && !s.tasks[t].out
    requires s.tasks[t].fin.Some? ==> s.tasks[t].fin.value in s.scopes
    requires g in s.scopes && s.tasks[t].fin != Some(g)
    ensures ScopeSame(s, Finish(s, t), t, g)
  {
    TaskLeaves(s, Finish(s, t), t, g);
    SameKids(s, Finish(s, t), g);
  }

  lemma FinishScopesInOrder(s: State, t: TaskId)
    requires t in s.tasks && s.tasks[t].putting == None && !s.tasks[t].out
    requires s.tasks[t].fin.Some? ==> s.tasks[t].fin.value in s.scopes && ScopeInv(s, s.tasks[t].fin.value)
    ensures ScopesInOrder(s, Finish(s, t), t, AsSet(s.tasks[t].fin))
  {
    if s.tasks[t].fin.Some? {
      FinishOn(s, t, s.tasks[t].fin.value);
    }
    forall g <- s.scopes | g !in AsSet(s.tasks[t].fin)
      ensures ScopeSame(s, Finish(s, t), t, g)
    {
      FinishElsewhere(s, t, g);
    }
  }

  lemma FinishEffect(s: State, w: Worker, t: TaskId)
    requires t in s.tasks
    requires s.tasks[t].fin.Some? ==>
               var f := s.tasks[t].fin.value;
               f in s.scopes && (s.scopes[f].fired ==> s.scopes[f].counter != 1)
    ensures Effect(s, Finish(s, t), w, t)
    ensures SameShapes(s.scopes, Finish(s, t).scopes)
  {
  }

  lemma FinishTouches(s: State, w: Worker, t: TaskId)
    requires Runs(s, w, t) && TaskInv(s, t) && WorkerInv(s, w)
    requires s.tasks[t].pc == Ending && s.tasks[t].putting == None
    requires s.tasks[t].fin.Some? ==> ScopeInv(s, s.tasks[t].fin.value)
    ensures Touches(s, Finish(s, t), w, t, AsSet(s.tasks[t].fin), {t})
  {
    FinishEffect(s, w, t);
    FinishScopesInOrder(s, t);
    ShapeKept(s.scopes, Finish(s, t).scopes, t, s.tasks[t]);
    TopMoved(s, Finish(s, t), w, t);
    FinishTask(s, t);
  }

  lemma FinishTask(s: State, t: TaskId)
    requires t in s.tasks && TaskInv(s, t) && s.tasks[t].pc == Ending
    requires s.tasks[t].fin.Some? ==> ScopeInv(s, s.tasks[t].fin.value)
    ensures TaskInv(Finish(s, t), t)
  {
  }

  // ---------------------------------------------------------------------
  // Every step keeps the invariant
  // ---------------------------------------------------------------------

  lemma InvRun(s: State, w: Worker, t: TaskId)
    requires Inv(s) && Enabled(s, Run(w)) && t == Top(s, w)
    ensures Inv(RunTop(s, w, t))
  {
    var s', r := RunTop(s, w, t), s.tasks[t];
    assert TaskInv(s, t) && WorkerInv(s, w);
    if r.putting.Some? {
      PutTouches(s, w, t, r.putting.value);
      InvTouches(s, s', w, t, {r.putting.value}, {t});
    } else {
      match r.pc {
        case Waiting(_) =>
          ResumeTouches(s, w, t);
          InvTouches(s, s', w, t, {}, {t});
        case Helping(f) =>
          if s.scopes[f].counter == 1 {
            HelpTouches(s, w, t, f);
            InvTouches(s, s', w, t, {f}, {t});
          }
        case NbSelf(f) =>
          DropBodyTouches(s, w, t, f);
          InvTouches(s, s', w, t, {f}, {t});
        case Leaving(f) =>
          ReleaseTouches(s, w, t, f);
          InvTouches(s, s', w, t, {f} + AsSet(s.scopes[f].parent), {t});
        case Restoring(f) =>
          RestoreTouches(s, w, t, f);
          InvTouches(s, s', w, t, {}, {t});
        case Ending =>
          FinishTouches(s, w, t);
          InvTouches(s, s', w, t, AsSet(r.fin), {t});
        case _ =>
          PopFrameTouches(s, w, t);
          InvTouches(s, s', w, t, {}, {t});
      }
    }
  }

  lemma InvSpawn(s: State, a: Action)
    requires Inv(s) && Enabled(s, a) && a.Spawn?
    ensures Inv(Step(s, a))
  {
    assert WorkerInv(s, a.w);
    SpawnTouches(s, a);
    InvTouches(s, Step(s, a), a.w, Top(s, a.w), AsSet(if a.escaping then None else s.workers[a.w].cur),
               {Top(s, a.w), a.t});
  }

  lemma NobodyKnowsNewScope(s: State, f: Scope)
    requires Inv(s) && f !in s.scopes
    ensures forall u <- s.tasks :: s.tasks[u].fin != Some(f)
    ensures forall g <- s.scopes :: s.scopes[g].parent != Some(f)
  {
    forall u <- s.tasks
      ensures s.tasks[u].fin != Some(f)
    {
      assert TaskInv(s, u);
    }
    forall g <- s.scopes
      ensures s.scopes[g].parent != Some(f)
    {
      assert ScopeInv(s, g);
    }
  }

  lemma InvStart(s: State, a: Action)
    requires Inv(s) && Enabled(s, a) && a.StartFinish?
    ensures Inv(Step(s, a))
  {
    assert WorkerInv(s, a.w);
    NobodyKnowsNewScope(s, a.f);
    StartTouches(s, a);
    InvTouches(s, Step(s, a), a.w, Top(s, a.w), AsSet(s.workers[a.w].cur) + {a.f}, {Top(s, a.w)});
  }

  lemma InvEnd(s: State, a: Action)
    requires Inv(s) && Enabled(s, a) && (a.EndFinish? || a.EndFinishNonblocking?)
    ensures Inv(Step(s, a))
  {
    var s', w := Step(s, a), a.w;
    assert WorkerInv(s, w);
    if a.EndFinish? {
      EndFinishTouches(s, w);
      InvTouches(s, s', w, Top(s, w), {}, {Top(s, w)});
    } else {
      EndNonblockingTouches(s, w);
      InvTouches(s, s', w, Top(s, w), {s.workers[w].cur.value}, {Top(s, w)});
    }
  }

  lemma InvStep(s: State, a: Action)
    requires Inv(s) && Enabled(s, a)
    ensures Inv(Step(s, a))
  {
    match a {
      case Spawn(_, _, _) => InvSpawn(s, a);
      case StartFinish(_, _) => InvStart(s, a);
      case EndFinish(_) => InvEnd(s, a);
      case EndFinishNonblocking(_) => InvEnd(s, a);
      case Wait(w) =>
        assert WorkerInv(s, w);
        WaitTouches(s, w);
        InvTouches(s, Step(s, a), w, Top(s, w), {}, {Top(s, w)});
      case Return(w) =>
        assert WorkerInv(s, w);
        ReturnTouches(s, w);
        InvTouches(s, Step(s, a), w, Top(s, w), {}, {Top(s, w)});
      case Execute(w, t) =>
        assert WorkerInv(s, w);
        ExecuteTouches(s, w, t);
        InvTouches(s, Step(s, a), w, t, {}, {t});
      case Run(w) =>
        assert WorkerInv(s, w);
        InvRun(s, w, Top(s, w));
    }
  }

  // ---------------------------------------------------------------------
  // Results about whole runs
  // ---------------------------------------------------------------------

  /** The `i`-th action leads from the `i`-th state to the next. */
  predicate StepAt(states: seq<State>, actions: seq<Action>, i: nat)
    requires i < |actions| && |states| == |actions| + 1
  {
    Enabled(states[i], actions[i]) && states[i + 1] == Step(states[i], actions[i])
  }

  ghost predicate IsRun(states: seq<State>, actions: seq<Action>) {
    && |states| == |actions| + 1
    && Init(states[0])
    && forall i :: 0 <= i < |actions| ==> StepAt(states, actions, i)
  }

  lemma RunsKeepInv(states: seq<State>, actions: seq<Action>, i: nat)
    requires IsRun(states, actions) && i < |states|
    ensures Inv(states[i])
  {
    for n := 0 to i
      invariant Inv(states[n])
    {
      assert StepAt(states, actions, n);
      InvStep(states[n], actions[n]);
    }
  }

  lemma ScopeInRun(states: seq<State>, actions: seq<Action>, i: nat, f: Scope)
    requires IsRun(states, actions) && i < |states| && f in states[i].scopes
    ensures ScopeInv(states[i], f)
  {
    RunsKeepInv(states, actions, i);
  }

  lemma TaskInRun(states: seq<State>, actions: seq<Action>, i: nat, t: TaskId)
    requires IsRun(states, actions) && i < |states| && t in states[i].tasks
    ensures TaskInv(states[i], t)
  {
    RunsKeepInv(states, actions, i);
  }

  lemma WorkerInRun(states: seq<State>, actions: seq<Action>, i: nat, w: Worker)
    requires IsRun(states, actions) && i < |states| && w in states[i].workers
    ensures WorkerInv(states[i], w)
  {
    RunsKeepInv(states, actions, i);
  }

  /** A counter is the body's token, plus the live tasks registered on it, plus its open child finishes. */
  lemma CounterIsTokens(states: seq<State>, actions: seq<Action>, i: nat, f: Scope)
    requires IsRun(states, actions) && i < |states| && f in states[i].scopes
    ensures var s := states[i];
            s.scopes[f].counter ==
            (if s.scopes[f].body then 1 else 0) + |LiveTasks(s, f)| + |OpenKids(s, f)|
  {
    ScopeInRun(states, actions, i, f);
  }

  lemma FiredStays(s: State, a: Action, f: Scope)
    requires Enabled(s, a) && f in s.scopes
    ensures f in Step(s, a).scopes
    ensures s.scopes[f].fired ==> Step(s, a).scopes[f].fired
    ensures s.scopes[f].put ==> Step(s, a).scopes[f].put
  {
  }

  lemma RunFiredStays(states: seq<State>, actions: seq<Action>, i: nat, f: Scope)
    requires IsRun(states, actions) && i < |actions| && f in states[i].scopes
    ensures f in states[i + 1].scopes
    ensures states[i].scopes[f].fired ==> states[i + 1].scopes[f].fired
    ensures states[i].scopes[f].put ==> states[i + 1].scopes[f].put
  {
    assert StepAt(states, actions, i);
    FiredStays(states[i], actions[i], f);
  }

  lemma {:induction false} PutStays(states: seq<State>, actions: seq<Action>, i: nat, j: nat, f: Scope)
    requires IsRun(states, actions) && i <= j < |states| && f in states[i].scopes && states[i].scopes[f].put
    ensures f in states[j].scopes && states[j].scopes[f].put
    decreases j
  {
    if i < j {
      PutStays(states, actions, i, j - 1, f);
      RunFiredStays(states, actions, j - 1, f);
    }
  }

  /** A task or a child finish only ever checks in with a scope that has tokens, and zero is final. */
  lemma NeverIncrementedFromZero(states: seq<State>, actions: seq<Action>, i: nat, f: Scope)
    requires IsRun(states, actions) && i < |actions| && f in states[i].scopes
    ensures f in states[i + 1].scopes
    ensures states[i + 1].scopes[f].counter > states[i].scopes[f].counter ==> states[i].scopes[f].counter > 0
    ensures states[i].scopes[f].counter == 0 ==> states[i + 1].scopes[f].counter == 0
  {
    RunFiredStays(states, actions, i, f);
    ScopeInRun(states, actions, i, f);
    ScopeInRun(states, actions, i + 1, f);
  }

  /** A scope whose promise is being put has nothing registered on it any more. */
  lemma PuttingMeansDone(s: State, t: TaskId, g: Scope)
    requires t in s.tasks && TaskInv(s, t) && s.tasks[t].putting == Some(g)
    requires g in s.scopes && ScopeInv(s, g)
    ensures s.scopes[g].dep && !s.scopes[g].put && s.scopes[g].counter == 0
    ensures LiveTasks(s, g) == {} && OpenKids(s, g) == {}
    ensures forall u <- s.tasks :: s.tasks[u].fin == Some(g) ==> s.tasks[u].out
  {
    forall u <- s.tasks | s.tasks[u].fin == Some(g)
      ensures s.tasks[u].out
    {
      assert u !in LiveTasks(s, g);
    }
  }

  lemma PutIsRecorded(s: State, w: Worker, u: TaskId, g: Scope)
    requires Enabled(s, Run(w)) && Runs(s, w, u) && s.tasks[u].putting == Some(g)
    ensures g in Step(s, Run(w)).scopes && Step(s, Run(w)).scopes[g].put
  {
  }

  /**
    When a finish promise is put, by task `u` on worker `w`, finish_dep is set, the
    promise has not been put before, and every task and child finish registered on
    the scope has checked out; after it the promise stays put.
   */
  lemma PutOnceAndOnlyWhenDone(states: seq<State>, actions: seq<Action>, i: nat, w: Worker, u: TaskId, g: Scope)
    requires IsRun(states, actions) && i < |actions| && actions[i] == Run(w)
    requires Runs(states[i], w, u) && states[i].tasks[u].putting == Some(g)
    ensures var s := states[i];
            && g in s.scopes
            && s.scopes[g].dep && !s.scopes[g].put && s.scopes[g].counter == 0
            && LiveTasks(s, g) == {} && OpenKids(s, g) == {}
            && (forall t <- s.tasks :: s.tasks[t].fin == Some(g) ==> s.tasks[t].out)
    ensures forall j :: i < j < |states| ==> g in states[j].scopes && states[j].scopes[g].put
  {
    TaskInRun(states, actions, i, u);
    ScopeInRun(states, actions, i, g);
    PuttingMeansDone(states[i], u, g);
    assert StepAt(states, actions, i);
    PutIsRecorded(states[i], w, u, g);
    forall j | i < j < |states|
      ensures g in states[j].scopes && states[j].scopes[g].put
    {
      PutStays(states, actions, i + 1, j, g);
    }
  }

  /** The k-th scope of `path` lies directly inside the one before and was not closed by the non-blocking end. */
  predicate NestedAt(s: State, path: seq<Scope>, k: nat)
    requires 0 < k < |path|
  {
    && path[k] in s.scopes && !s.scopes[path[k]].nb
    && s.scopes[path[k]].parent == Some(path[k - 1])
  }

  /** `path` leads from a scope inwards through scopes not closed by the non-blocking end. */
  ghost predicate Nested(s: State, path: seq<Scope>) {
    && path != [] && path[0] in s.scopes
    && forall k :: 0 < k < |path| ==> NestedAt(s, path, k)
  }

  /** A drained scope has waited for its blocking children, so they are drained too. */
  lemma ChildDrained(s: State, f: Scope, g: Scope)
    requires f in s.scopes && g in s.scopes && ScopeInv(s, f) && ScopeInv(s, g)
    requires s.scopes[f].drained && s.scopes[g].parent == Some(f) && !s.scopes[g].nb
    ensures s.scopes[g].drained
  {
    assert g !in OpenKids(s, f);
  }

  lemma {:induction false} NestedDrained(s: State, path: seq<Scope>)
    requires Nested(s, path) && s.scopes[path[0]].drained
    requires forall k :: 0 <= k < |path| ==> path[k] in s.scopes && ScopeInv(s, path[k])
    ensures path[|path| - 1] in s.scopes && s.scopes[path[|path| - 1]].drained
  {
    if |path| > 1 {
      var outer := path[..|path| - 1];
      forall k | 0 < k < |outer|
        ensures NestedAt(s, outer, k)
      {
        assert NestedAt(s, path, k);
      }
      NestedDrained(s, outer);
      assert NestedAt(s, path, |path| - 1);
      ChildDrained(s, outer[|outer| - 1], path[|path| - 1]);
    }
  }

  /** The scopes of a path inside a drained one are drained, so nothing is registered on them. */
  lemma DrainedMeansDone(s: State, path: seq<Scope>, t: TaskId)
    requires Nested(s, path) && s.scopes[path[0]].drained
    requires forall k :: 0 <= k < |path| ==> path[k] in s.scopes && ScopeInv(s, path[k])
    requires t in s.tasks && s.tasks[t].fin == Some(path[|path| - 1])
    ensures s.tasks[t].out
  {
    NestedDrained(s, path);
    assert t !in LiveTasks(s, path[|path| - 1]);
  }

  /** A blocking end that is about to return has seen its scope drained. */
  lemma RestoringMeansDrained(s: State, u: TaskId, f: Scope)
    requires u in s.tasks && TaskInv(s, u) && s.tasks[u].pc == Restoring(f)
    requires f in s.scopes && ScopeInv(s, f) && !s.scopes[f].nb
    ensures s.scopes[f].drained
  {
  }

  lemma OutMeansEnded(s: State, t: TaskId)
    requires t in s.tasks && TaskInv(s, t) && s.tasks[t].out
    ensures s.tasks[t].pc.Ended? || s.tasks[t].pc.Done?
  {
  }

  /**
    hclib_end_finish is a barrier.  When a blocking end, called by task `u` on worker
    `w`, returns, every task registered on the scope, or on any scope nested inside it
    through blocking finishes, has completed.
   */
  lemma EndFinishIsABarrier(states: seq<State>, actions: seq<Action>, i: nat, w: Worker, u: TaskId, f: Scope,
                            path: seq<Scope>, t: TaskId)
    requires IsRun(states, actions) && i < |actions| && actions[i] == Run(w)
    requires Runs(states[i], w, u) && states[i].tasks[u].pc == Restoring(f)
    requires f in states[i].scopes && !states[i].scopes[f].nb
    requires Nested(states[i], path) && path[0] == f
    requires t in states[i].tasks && states[i].tasks[t].fin == Some(path[|path| - 1])
    ensures states[i].tasks[t].out && (states[i].tasks[t].pc.Ended? || states[i].tasks[t].pc.Done?)
  {
    var s := states[i];
    TaskInRun(states, actions, i, u);
    ScopeInRun(states, actions, i, f);
    RestoringMeansDrained(s, u, f);
    forall k | 0 <= k < |path|
      ensures path[k] in s.scopes && ScopeInv(s, path[k])
    {
      assert k > 0 ==> NestedAt(s, path, k);
      ScopeInRun(states, actions, i, path[k]);
    }
    DrainedMeansDone(s, path, t);
    TaskInRun(states, actions, i, t);
    OutMeansEnded(s, t);
  }

  lemma StackIsNested(s: State, t: TaskId, fin: Scope)
    requires t in s.tasks && TaskInv(s, t) && s.tasks[t].pc == Body && s.tasks[t].fin == Some(fin)
    ensures Nested(s, [fin] + s.tasks[t].stack)
  {
    var stack := s.tasks[t].stack;
    var path := [fin] + stack;
    forall k | 0 < k < |path|
      ensures NestedAt(s, path, k)
    {
      assert Open(s.scopes, t, stack[k - 1]);
      assert s.scopes[stack[k - 1]].parent == ParentIn(Some(fin), stack, k - 1);
    }
  }

  lemma SpawnRegisters(s: State, a: Action, u: TaskId)
    requires Enabled(s, a) && a.Spawn? && !a.escaping && Runs(s, a.w, u) && WorkerInv(s, a.w)
    ensures a.t in Step(s, a).tasks && Step(s, a).tasks[a.t].fin == Current(s.tasks[u])
  {
  }

  /** What task `u` spawns is registered inside the scope `u` itself is registered on. */
  lemma SpawnsStayInside(states: seq<State>, actions: seq<Action>, i: nat, w: Worker, u: TaskId, t: TaskId)
    requires IsRun(states, actions) && i < |actions| && actions[i] == Spawn(w, t, false) && Runs(states[i], w, u)
    ensures var s, parent := states[i], states[i].tasks[u];
            && t in states[i + 1].tasks
            && states[i + 1].tasks[t].fin == Current(parent)
            && (parent.fin.Some? ==> Nested(s, [parent.fin.value] + parent.stack))
  {
    var s := states[i];
    assert StepAt(states, actions, i);
    TaskInRun(states, actions, i, u);
    WorkerInRun(states, actions, i, w);
    SpawnRegisters(s, actions[i], u);
    if s.tasks[u].fin.Some? {
      StackIsNested(s, u, s.tasks[u].fin.value);
    }
  }

  /** Whatever ran in between, user code sees the innermost scope it opened as its current finish. */
  lemma CurrentFinishIsRestored(states: seq<State>, actions: seq<Action>, i: nat, w: Worker, u: TaskId)
    requires IsRun(states, actions) && i < |states|
    requires Runs(states[i], w, u) && states[i].tasks[u].pc == Body
    ensures states[i].workers[w].cur == Current(states[i].tasks[u])
  {
    WorkerInRun(states, actions, i, w);
  }

  /** The runtime never follows a finish pointer that leads nowhere. */
  lemma RuntimeStepsAreDefined(states: seq<State>, actions: seq<Action>, i: nat, w: Worker, u: TaskId)
    requires IsRun(states, actions) && i < |states|
    requires Runs(states[i], w, u) && states[i].tasks[u].pc != Body
    ensures Enabled(states[i], Run(w))
  {
    var s := states[i];
    var r := s.tasks[u];
    WorkerInRun(states, actions, i, w);
    TaskInRun(states, actions, i, u);
    if r.pc.Leaving? {
      ScopeInRun(states, actions, i, r.pc.f);
    }
  }
}
