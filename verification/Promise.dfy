/**
  Promise wait lists: src/hclib-promise.c together with the spawn path of
  src/hclib-runtime.c, as a machine of atomic steps.

  Threads spawn tasks that await futures and put promises, in any interleaving.
  A task waits on one promise at a time, through its single `next` field; a put
  closes the promise's list, detaches it and moves every task on it to its next
  unsatisfied future.

  `place`, `lists`, `rest`, `putter`, `chain`, `walked`, `visited` and
  `scheduled` are auxiliary: they record and never influence a step.
 */
module PromiseWaitLists {
  import opened Common

  type Promise = nat
  type TaskId = nat
  type Thread = nat

  const MAX_NUM_WAITS: nat := 4

  /** A wait list head or `next_waiter`: NULL, the end-of-list sentinel, or a task. */
  datatype Ptr = Satisfied | Sentinel | Ref(t: TaskId)

  datatype PromiseRec = PromiseRec(satisfied: bool, head: Ptr)

  datatype TaskRec = TaskRec(futures: seq<Promise>, index: int, next: Ptr, visited: seq<Promise>)

  /** Where a task is. */
  datatype Place = Held(holder: Thread) | Waiting(on: Promise) | Detached(walker: Thread) | Scheduled

  /** What the thread does once it is done with its task. */
  datatype Then = Spawning | Walking(p: Promise, next: Ptr, rest: seq<TaskId>)

  datatype Pc =
    | Idle
    | Advance(t: TaskId, then_: Then, again: bool)
    | ReadHead(t: TaskId, then_: Then, again: bool, p: Promise)
    | SetNext(t: TaskId, then_: Then, again: bool, p: Promise, cur: Ptr)
    | CasHead(t: TaskId, then_: Then, again: bool, p: Promise, cur: Ptr)
    | Schedule(t: TaskId, then_: Then)
    | PutRead(p: Promise)
    | PutDatum(p: Promise, w: Ptr)
    | PutCas(p: Promise, w: Ptr)
    | PutReread(p: Promise)
    | Walk(p: Promise, curr: Ptr, rest: seq<TaskId>)

  datatype State = State(
    promises: map<Promise, PromiseRec>,
    tasks: map<TaskId, TaskRec>,
    threads: map<Thread, Pc>,
    lists: map<Promise, seq<TaskId>>,
    place: map<TaskId, Place>,
    putter: map<Promise, Thread>,
    chain: map<Promise, seq<TaskId>>,
    walked: map<Promise, seq<TaskId>>,
    scheduled: seq<TaskId>)

  datatype Action =
    | CallSpawn(th: Thread, t: TaskId, futures: seq<Promise>)
    | CallPut(th: Thread, p: Promise)
    | Run(th: Thread)

  // ---------------------------------------------------------------------
  // The split list of futures and its cursor
  // ---------------------------------------------------------------------

  /** The inline array after the copy in spawn_handler: at most MAX_NUM_WAITS entries, then NULL. */
  function WaitingOn(fs: seq<Promise>, i: int): Option<Promise> {
    if 0 <= i < |fs| && i < MAX_NUM_WAITS then Some(fs[i]) else None
  }

  /** The overflow array: the remaining futures and one terminating NULL. */
  function WaitingOnExtra(fs: seq<Promise>): Option<seq<Option<Promise>>> {
    if |fs| > MAX_NUM_WAITS then
      Some(seq(|fs| - MAX_NUM_WAITS, i requires 0 <= i < |fs| - MAX_NUM_WAITS => Some(fs[i + MAX_NUM_WAITS])) + [None])
    else None
  }

  /** One turn of the loops in register_on_all_promise_dependencies. */
  datatype Cursor = Visit(p: Promise) | Skip | Done

  function Scan(fs: seq<Promise>, index: int): Cursor {
    if index < MAX_NUM_WAITS - 1 then
      match WaitingOn(fs, index + 1)
      case Some(p) => Visit(p)
      case None => Skip
    else
      match WaitingOnExtra(fs)
      case None => Done
      case Some(extra) =>
        if index - MAX_NUM_WAITS + 1 < |extra| && extra[index - MAX_NUM_WAITS + 1].Some?
        then Visit(extra[index + 1 - MAX_NUM_WAITS].value)
        else Done
  }

  /** The cursor reads in bounds and visits exactly the next future of the list, if there is one. */
  lemma ScanFollowsTheList(fs: seq<Promise>, index: int)
    requires -1 <= index < |fs| || -1 <= index < MAX_NUM_WAITS
    ensures index >= MAX_NUM_WAITS - 1 && WaitingOnExtra(fs).Some? ==>
              0 <= index - MAX_NUM_WAITS + 1 < |WaitingOnExtra(fs).value|
    ensures Scan(fs, index) ==
            if index + 1 < |fs| then Visit(fs[index + 1])
            else if index < MAX_NUM_WAITS - 1 then Skip
            else Done
  {
  }

  // ---------------------------------------------------------------------
  // The machine
  // ---------------------------------------------------------------------

  predicate Init(s: State) {
    && (forall p <- s.promises :: s.promises[p] == PromiseRec(false, Sentinel))
    && (forall th <- s.threads :: s.threads[th] == Idle)
    && s.tasks == map[] && s.place == map[] && s.putter == map[]
    && s.lists.Keys == s.promises.Keys && (forall p <- s.lists :: s.lists[p] == [])
    && s.chain == map[] && s.walked == map[]
    && s.scheduled == []
  }

  /** A task is spawned once, on promises that exist; a promise is put once. */
  predicate Enabled(s: State, a: Action) {
    match a
    case CallSpawn(th, t, fs) =>
      && th in s.threads && s.threads[th] == Idle
      && t !in s.tasks
      && (forall p <- fs :: p in s.promises)
    case CallPut(th, p) =>
      && th in s.threads && s.threads[th] == Idle
      && p in s.promises && p !in s.putter
    case Run(th) =>
      th in s.threads && s.threads[th] != Idle && Grounded(s, s.threads[th])
  }

  /** The pointers a step follows lead somewhere. */
  predicate Grounded(s: State, pc: Pc) {
    match pc
    case Idle => true
    case Advance(t, _, _) => t in s.tasks
    case ReadHead(t, _, _, p) => t in s.tasks && p in s.promises
    case SetNext(t, _, _, p, _) => t in s.tasks && p in s.promises
    case CasHead(t, _, _, p, _) => t in s.tasks && p in s.promises && p in s.lists
    case Schedule(t, _) => t in s.tasks
    case PutRead(p) => p in s.promises
    case PutDatum(p, _) => p in s.promises
    case PutCas(p, _) => p in s.promises && p in s.lists
    case PutReread(p) => p in s.promises
    case Walk(p, curr, rest) =>
      && curr != Satisfied
      && (curr.Ref? ==> curr.t in s.tasks && rest != [] && p in s.walked)
  }

  function Step(s: State, a: Action): State
    requires Enabled(s, a)
  {
    match a
    case CallSpawn(th, t, fs) =>
      s.(tasks := s.tasks[t := TaskRec(fs, -1, Satisfied, [])],
         place := s.place[t := Held(th)],
         threads := s.threads[th := if WaitingOn(fs, 0).Some? then Advance(t, Spawning, false)
                                    else Schedule(t, Spawning)])
    case CallPut(th, p) =>
      s.(putter := s.putter[p := th], threads := s.threads[th := PutRead(p)])
    case Run(th) => RunThread(s, th)
  }

  function Goto(s: State, th: Thread, pc: Pc): State {
    s.(threads := s.threads[th := pc])
  }

  /** The thread stores `r` in the task it is advancing and goes on at `pc`. */
  function Hold(s: State, th: Thread, r: TaskRec, pc: Pc): State
    requires HasThen(pc)
  {
    Goto(s.(tasks := s.tasks[pc.t := r]), th, pc)
  }

  /** The thread stores `r` in the promise it is putting and goes on at `pc`. */
  function PutGoto(s: State, th: Thread, p: Promise, r: PromiseRec, pc: Pc): State {
    Goto(s.(promises := s.promises[p := r]), th, pc)
  }

  predicate HasThen(pc: Pc) {
    pc.Advance? || pc.ReadHead? || pc.SetNext? || pc.CasHead? || pc.Schedule?
  }

  function Continue(then_: Then): Pc {
    match then_
    case Spawning => Idle
    case Walking(p, next, rest) => Walk(p, next, rest)
  }

  /**
    One turn of the cursor loop.  At the end of the list a spawn schedules the task;
    a put calls try_schedule_async, which runs the cursor once more.
   */
  function Advanced(r: TaskRec, pc: Pc): (res: (TaskRec, Pc))
    requires pc.Advance?
    ensures HasThen(res.1) && res.1.t == pc.t && res.1.then_ == pc.then_
    ensures res.0.futures == r.futures
  {
    var Advance(t, k, again) := pc;
    match Scan(r.futures, r.index)
    case Visit(p) =>
      (r.(index := r.index + 1, visited := r.visited + [p]), ReadHead(t, k, again, p))
    case Skip =>
      (r.(index := r.index + 1), pc)
    case Done =>
      (r, if k.Spawning? || again then Schedule(t, k) else Advance(t, k, true))
  }

  /** The task becomes the head of the promise's wait list. */
  function Enlist(s: State, th: Thread, t: TaskId, p: Promise, k: Then): State
    requires p in s.promises && p in s.lists
  {
    Goto(s.(promises := s.promises[p := s.promises[p].(head := Ref(t))],
            lists := s.lists[p := [t] + s.lists[p]],
            place := s.place[t := Waiting(p)]),
         th, Continue(k))
  }

  /** The task is handed to the work-stealing runtime. */
  function Emit(s: State, th: Thread, t: TaskId, k: Then): State {
    Goto(s.(scheduled := s.scheduled + [t], place := s.place[t := Scheduled]), th, Continue(k))
  }

  /** The put closes the promise for registration and takes its list. */
  function Close(s: State, th: Thread, p: Promise, w: Ptr): State
    requires p in s.promises && p in s.lists
  {
    var ts := s.lists[p];
    Goto(s.(promises := s.promises[p := s.promises[p].(head := Satisfied)],
            lists := s.lists[p := []],
            place := map t | t in s.place :: if t in ts then Detached(th) else s.place[t],
            chain := s.chain[p := ts],
            walked := s.walked[p := []]),
         th, Walk(p, w, ts))
  }

  /** The put takes the next task off the list it detached, saving the link first. */
  function Take(s: State, th: Thread, p: Promise, t: TaskId, rest: seq<TaskId>): State
    requires t in s.tasks && p in s.walked && rest != []
  {
    Goto(s.(place := s.place[t := Held(th)], walked := s.walked[p := s.walked[p] + [t]]),
         th, Advance(t, Walking(p, s.tasks[t].next, rest[1..]), false))
  }

  function RunThread(s: State, th: Thread): State
    requires Enabled(s, Run(th))
  {
    match s.threads[th]
    case Advance(t, k, again) =>
      var (r, pc) := Advanced(s.tasks[t], s.threads[th]);
      Hold(s, th, r, pc)
    case ReadHead(t, k, again, p) =>
      var cur := s.promises[p].head;
      Hold(s, th, s.tasks[t],
           if cur == Satisfied then Advance(t, k, again) else SetNext(t, k, again, p, cur))
    case SetNext(t, k, again, p, cur) =>
      Hold(s, th, s.tasks[t].(next := cur), CasHead(t, k, again, p, cur))
    case CasHead(t, k, again, p, cur) =>
      if s.promises[p].head == cur then
        Enlist(s, th, t, p, k)
      else
        Hold(s, th, s.tasks[t], ReadHead(t, k, again, p))
    case Schedule(t, k) =>
      Emit(s, th, t, k)
    case PutRead(p) =>
      PutGoto(s, th, p, s.promises[p], PutDatum(p, s.promises[p].head))
    case PutDatum(p, w) =>
      PutGoto(s, th, p, s.promises[p].(satisfied := true), PutCas(p, w))
    case PutCas(p, w) =>
      if s.promises[p].head == w then
        Close(s, th, p, w)
      else
        PutGoto(s, th, p, s.promises[p], PutReread(p))
    case PutReread(p) =>
      PutGoto(s, th, p, s.promises[p], PutCas(p, s.promises[p].head))
    case Walk(p, curr, rest) =>
      if curr == Sentinel then
        Goto(s, th, Idle)
      else
        Take(s, th, p, curr.t, rest)
  }

  // ---------------------------------------------------------------------
  // The invariant
  // ---------------------------------------------------------------------

  /** The promise is closed for registration: its put has gone through. */
  predicate Closed(s: State, p: Promise) {
    p in s.promises && s.promises[p].head == Satisfied
  }

  /** The first `n` futures of the list are closed. */
  predicate ClosedUpTo(s: State, fs: seq<Promise>, n: int) {
    forall k :: 0 <= k < n && k < |fs| ==> Closed(s, fs[k])
  }

  predicate NoDup(ts: seq<TaskId>) {
    forall i, j :: 0 <= i < j < |ts| ==> ts[i] != ts[j]
  }

  function Link(ts: seq<TaskId>, i: nat): Ptr {
    if i < |ts| then Ref(ts[i]) else Sentinel
  }

  /** Following `next` from `ptr` runs through exactly `ts` and ends at the sentinel. */
  predicate Chain(s: State, ptr: Ptr, ts: seq<TaskId>) {
    && ptr == Link(ts, 0)
    && forall i :: 0 <= i < |ts| ==> ts[i] in s.tasks && s.tasks[ts[i]].next == Link(ts, i + 1)
  }

  /** A duplicate-free chain all of whose tasks are at `place`. */
  predicate ChainAt(s: State, ptr: Ptr, ts: seq<TaskId>, place: Place) {
    && Chain(s, ptr, ts)
    && NoDup(ts)
    && forall i :: 0 <= i < |ts| ==> ts[i] in s.place && s.place[ts[i]] == place
  }

  /** The tasks a thread has detached and not yet reached, and the promise they came from. */
  function Rest(pc: Pc): seq<TaskId> {
    match pc
    case Walk(_, _, rest) => rest
    case _ => if HasThen(pc) && pc.then_.Walking? then pc.then_.rest else []
  }

  predicate Walks(pc: Pc, p: Promise) {
    match pc
    case Walk(q, _, _) => q == p
    case _ => HasThen(pc) && pc.then_.Walking? && pc.then_.p == p
  }

  predicate Puts(pc: Pc, p: Promise) {
    match pc
    case PutRead(q) => p == q
    case PutDatum(q, _) => p == q
    case PutCas(q, _) => p == q
    case PutReread(q) => p == q
    case _ => false
  }

  predicate PromiseInv(s: State, p: Promise)
    requires p in s.promises
  {
    && p in s.lists
    && (s.promises[p].satisfied ==> p in s.putter)
    && if s.promises[p].head == Satisfied then
         && s.promises[p].satisfied
         && s.lists[p] == []
         && p in s.putter && s.putter[p] in s.threads
         && p in s.chain && p in s.walked
         && NoDup(s.chain[p])
         && var pc := s.threads[s.putter[p]];
            s.chain[p] == s.walked[p] + (if Walks(pc, p) then Rest(pc) else [])
       else
         ChainAt(s, s.promises[p].head, s.lists[p], Waiting(p))
  }

  /** The cursor stays in range and has visited a prefix of the list, in order. */
  predicate CursorInv(r: TaskRec) {
    && -1 <= r.index && (r.index < |r.futures| || r.index < MAX_NUM_WAITS)
    && r.visited == (if r.index + 1 <= |r.futures| then r.futures[..r.index + 1] else r.futures)
  }

  predicate TaskInv(s: State, t: TaskId)
    requires t in s.tasks
  {
    var r := s.tasks[t];
    && t in s.place
    && (forall p <- r.futures :: p in s.promises)
    && CursorInv(r)
    && match s.place[t]
       case Held(th) => th in s.threads && HasThen(s.threads[th]) && s.threads[th].t == t
       case Waiting(p) =>
         && p in s.lists && t in s.lists[p]
         && 0 <= r.index < |r.futures| && r.futures[r.index] == p
         && ClosedUpTo(s, r.futures, r.index)
       case Detached(th) =>
         && th in s.threads && t in Rest(s.threads[th])
         && 0 <= r.index < |r.futures|
         && ClosedUpTo(s, r.futures, r.index + 1)
       case Scheduled =>
         t in s.scheduled && |r.futures| <= r.index + 1 && ClosedUpTo(s, r.futures, |r.futures|)
  }

  predicate ThenInv(s: State, th: Thread, k: Then) {
    k.Walking? ==>
      && ChainAt(s, k.next, k.rest, Detached(th))
      && k.p in s.putter && s.putter[k.p] == th && Closed(s, k.p) && k.p in s.walked
  }

  predicate PcInv(s: State, th: Thread, pc: Pc) {
    && (HasThen(pc) ==>
          && pc.t in s.tasks && pc.t in s.place && s.place[pc.t] == Held(th)
          && ThenInv(s, th, pc.then_)
          && TaskPcInv(s, s.tasks[pc.t], pc))
    && match pc
       case PutRead(p) => Putting(s, th, p)
       case PutDatum(p, w) => Putting(s, th, p) && w != Satisfied
       case PutCas(p, w) => Putting(s, th, p) && w != Satisfied && s.promises[p].satisfied
       case PutReread(p) => Putting(s, th, p) && s.promises[p].satisfied
       case Walk(p, curr, rest) =>
         && ChainAt(s, curr, rest, Detached(th))
         && p in s.putter && s.putter[p] == th && Closed(s, p) && p in s.walked
       case _ => true
  }

  /** What a thread knows about the task `r` it is advancing. */
  predicate TaskPcInv(s: State, r: TaskRec, pc: Pc) {
    match pc
    case Advance(t, k, again) =>
      && r.futures != []
      && ClosedUpTo(s, r.futures, r.index + 1)
      && (again ==> Scan(r.futures, r.index) == Done)
    case ReadHead(t, k, again, p) => Registering(s, r, again, p)
    case SetNext(t, k, again, p, cur) => Registering(s, r, again, p) && cur != Satisfied
    case CasHead(t, k, again, p, cur) =>
      Registering(s, r, again, p) && cur != Satisfied && r.next == cur
    case Schedule(t, k) => |r.futures| <= r.index + 1 && ClosedUpTo(s, r.futures, |r.futures|)
    case _ => true
  }

  /** The task at the cursor is being registered; the call that must find nothing never gets here. */
  predicate Registering(s: State, r: TaskRec, again: bool, p: Promise) {
    && !again
    && p in s.promises
    && 0 <= r.index < |r.futures| && r.futures[r.index] == p
    && ClosedUpTo(s, r.futures, r.index)
  }

  predicate Putting(s: State, th: Thread, p: Promise) {
    p in s.promises && !Closed(s, p) && p in s.putter && s.putter[p] == th
  }

  predicate ScheduleInv(s: State) {
    && NoDup(s.scheduled)
    && forall i :: 0 <= i < |s.scheduled| ==>
         s.scheduled[i] in s.place && s.place[s.scheduled[i]] == Scheduled
  }

  predicate Inv(s: State) {
    && (forall p <- s.promises :: PromiseInv(s, p))
    && s.place.Keys == s.tasks.Keys
    && (forall t <- s.tasks :: TaskInv(s, t))
    && (forall th <- s.threads :: PcInv(s, th, s.threads[th]))
    && ScheduleInv(s)
  }

  // ---------------------------------------------------------------------
  // What a step of one thread leaves alone
  // ---------------------------------------------------------------------

  /** The tasks `th` may move: its own, the ones it detached, and waiters of a promise it closes. */
  predicate MayMove(s: State, s': State, th: Thread, t: TaskId)
    requires t in s.place
  {
    match s.place[t]
    case Held(u) => u == th
    case Detached(u) => u == th
    case Waiting(p) => !Closed(s, p) && Closed(s', p)
    case Scheduled => false
  }

  predicate Effect(s: State, s': State, th: Thread) {
    && s'.threads.Keys == s.threads.Keys
    && (forall u <- s.threads :: u != th ==> s'.threads[u] == s.threads[u])
    && s'.promises.Keys == s.promises.Keys && s'.lists.Keys == s.lists.Keys
    && (forall p <- s.promises ::
          && (Closed(s, p) ==> Closed(s', p))
          && (s.promises[p].satisfied ==> s'.promises[p].satisfied)
          && (p in s.putter && s.putter[p] != th ==> Closed(s, p) == Closed(s', p)))
    && (forall p <- s.putter :: p in s'.putter && s'.putter[p] == s.putter[p])
    && (forall p <- s.walked :: p in s'.walked)
    && (forall t <- s.tasks :: t in s.place && s.place[t] != Held(th) ==>
          t in s'.tasks && s'.tasks[t] == s.tasks[t])
    && (forall t <- s.place :: t in s'.place && (MayMove(s, s', th, t) || s'.place[t] == s.place[t]))
    && (forall t <- s.scheduled :: t in s'.scheduled)
  }

  lemma ChainKept(s: State, s': State, th: Thread, ptr: Ptr, ts: seq<TaskId>, place: Place)
    requires Effect(s, s', th)
    requires ChainAt(s, ptr, ts, place)
    requires forall i :: 0 <= i < |ts| ==> s'.place[ts[i]] == place
    requires place != Held(th)
    ensures ChainAt(s', ptr, ts, place)
  {
  }

  lemma ClosedKept(s: State, s': State, th: Thread, fs: seq<Promise>, n: int)
    requires Effect(s, s', th)
    ensures ClosedUpTo(s, fs, n) ==> ClosedUpTo(s', fs, n)
  {
  }

  lemma OtherThreadKept(s: State, s': State, th: Thread, u: Thread, pc: Pc)
    requires Effect(s, s', th) && PcInv(s, u, pc) && u != th
    ensures PcInv(s', u, pc)
  {
    if HasThen(pc) {
      var fs := s.tasks[pc.t].futures;
      ClosedKept(s, s', th, fs, s.tasks[pc.t].index);
      ClosedKept(s, s', th, fs, s.tasks[pc.t].index + 1);
      ClosedKept(s, s', th, fs, |fs|);
      if pc.then_.Walking? {
        ChainKept(s, s', th, pc.then_.next, pc.then_.rest, Detached(u));
      }
    } else if pc.Walk? {
      ChainKept(s, s', th, pc.curr, pc.rest, Detached(u));
    }
  }

  predicate TaskSame(s: State, s': State, th: Thread, t: TaskId)
    requires t in s.place
  {
    && t in s'.place && s'.place[t] == s.place[t]
    && match s.place[t]
       case Waiting(p) => p in s.lists && t in s.lists[p] ==> p in s'.lists && t in s'.lists[p]
       case Detached(u) =>
         u == th && u in s.threads && t in Rest(s.threads[u]) ==> u in s'.threads && t in Rest(s'.threads[u])
       case _ => true
  }

  lemma TaskKept(s: State, s': State, th: Thread, t: TaskId)
    requires Effect(s, s', th) && t in s.tasks && TaskInv(s, t)
    requires TaskSame(s, s', th, t) && s.place[t] != Held(th)
    ensures t in s'.tasks && TaskInv(s', t)
  {
    var fs := s.tasks[t].futures;
    ClosedKept(s, s', th, fs, s.tasks[t].index);
    ClosedKept(s, s', th, fs, s.tasks[t].index + 1);
    ClosedKept(s, s', th, fs, |fs|);
  }

  /** Same list, and the thread that detached it still has the same part of it ahead. */
  predicate PromiseSame(s: State, s': State, th: Thread, p: Promise)
    requires p in s.promises
  {
    && p in s'.promises && s'.promises[p].head == s.promises[p].head
    && (s'.promises[p].satisfied ==> s.promises[p].satisfied || p in s'.putter)
    && (p in s.lists ==> p in s'.lists && s'.lists[p] == s.lists[p])
    && (p in s.chain ==> p in s'.chain && s'.chain[p] == s.chain[p])
    && (p in s.walked ==> p in s'.walked && s'.walked[p] == s.walked[p])
    && (th in s.threads && Closed(s, p) && p in s.putter && s.putter[p] == th ==>
          && th in s'.threads
          && Walks(s'.threads[th], p) == Walks(s.threads[th], p)
          && (Walks(s.threads[th], p) ==> Rest(s'.threads[th]) == Rest(s.threads[th])))
  }

  lemma PromiseKept(s: State, s': State, th: Thread, p: Promise)
    requires Effect(s, s', th) && p in s.promises && PromiseInv(s, p)
    requires PromiseSame(s, s', th, p)
    ensures PromiseInv(s', p)
  {
    if !Closed(s, p) {
      ChainKept(s, s', th, s.promises[p].head, s.lists[p], Waiting(p));
    }
  }

  // ---------------------------------------------------------------------
  // Every step keeps the invariant
  // ---------------------------------------------------------------------

  lemma OtherThreadsKept(s: State, s': State, th: Thread)
    requires (forall u <- s.threads :: PcInv(s, u, s.threads[u])) && th in s.threads
    requires Effect(s, s', th) && PcInv(s', th, s'.threads[th])
    ensures forall u <- s'.threads :: PcInv(s', u, s'.threads[u])
  {
    forall u <- s'.threads
      ensures PcInv(s', u, s'.threads[u])
    {
      if u != th {
        OtherThreadKept(s, s', th, u, s.threads[u]);
      }
    }
  }

  /** Outside `ps` and `ts` everything is as it was. */
  ghost predicate Untouched(s: State, s': State, th: Thread, ps: set<Promise>, ts: set<TaskId>) {
    && th in s.threads && th in s'.threads
    && s'.tasks.Keys <= s.tasks.Keys + ts
    && (s.place.Keys == s.tasks.Keys ==> s'.place.Keys == s'.tasks.Keys)
    && (HasThen(s.threads[th]) ==> s.threads[th].t in ts)
    && (forall p <- s.promises :: p !in ps ==> PromiseSame(s, s', th, p))
    && (forall t <- s.place :: t !in ts ==> TaskSame(s, s', th, t))
  }

  /** The thread itself, the promises `ps` and the tasks `ts` are in order. */
  ghost predicate InOrder(s': State, th: Thread, ps: set<Promise>, ts: set<TaskId>) {
    && (forall p <- ps :: p in s'.promises && PromiseInv(s', p))
    && (forall t <- ts :: t in s'.tasks && TaskInv(s', t))
    && th in s'.threads && PcInv(s', th, s'.threads[th])
  }

  /** A step of `th` that touches only the promises `ps` and the tasks `ts`. */
  ghost predicate Touches(s: State, s': State, th: Thread, ps: set<Promise>, ts: set<TaskId>) {
    && Effect(s, s', th)
    && Untouched(s, s', th, ps, ts)
    && InOrder(s', th, ps, ts)
    && (ScheduleInv(s) ==> ScheduleInv(s'))
  }

  lemma InvTouches(s: State, s': State, th: Thread, ps: set<Promise>, ts: set<TaskId>)
    requires Inv(s) && Touches(s, s', th, ps, ts)
    ensures Inv(s')
  {
    forall p <- s'.promises
      ensures PromiseInv(s', p)
    {
      if p !in ps {
        PromiseKept(s, s', th, p);
      }
    }
    forall t <- s'.tasks
      ensures TaskInv(s', t)
    {
      if t !in ts {
        assert TaskInv(s, t);
        TaskKept(s, s', th, t);
      }
    }
    OtherThreadsKept(s, s', th);
  }

  /** A thread may rewrite the task it holds and keep holding it. */
  lemma HeldStepTouches(s: State, th: Thread, r: TaskRec, pc: Pc)
    requires th in s.threads && HasThen(s.threads[th]) && PcInv(s, th, s.threads[th])
    requires TaskInv(s, s.threads[th].t)
    requires HasThen(pc) && pc.t == s.threads[th].t && pc.then_ == s.threads[th].then_
    requires r.futures == s.tasks[pc.t].futures && CursorInv(r) && TaskPcInv(s, r, pc)
    ensures Touches(s, Hold(s, th, r, pc), th, {}, {pc.t})
  {
    HeldStepEffect(s, th, r, pc);
    HeldStepUntouched(s, th, r, pc);
    HeldStepInOrder(s, th, r, pc);
  }

  lemma HeldStepEffect(s: State, th: Thread, r: TaskRec, pc: Pc)
    requires th in s.threads && HasThen(pc)
    requires pc.t in s.tasks && pc.t in s.place && s.place[pc.t] == Held(th)
    ensures Effect(s, Hold(s, th, r, pc), th)
  {
  }

  lemma HeldStepUntouched(s: State, th: Thread, r: TaskRec, pc: Pc)
    requires th in s.threads && HasThen(s.threads[th])
    requires HasThen(pc) && pc.t == s.threads[th].t && pc.then_ == s.threads[th].then_
    requires pc.t in s.tasks
    ensures Untouched(s, Hold(s, th, r, pc), th, {}, {pc.t})
  {
  }

  lemma HeldStepInOrder(s: State, th: Thread, r: TaskRec, pc: Pc)
    requires th in s.threads && HasThen(s.threads[th]) && PcInv(s, th, s.threads[th])
    requires TaskInv(s, s.threads[th].t)
    requires HasThen(pc) && pc.t == s.threads[th].t && pc.then_ == s.threads[th].then_
    requires r.futures == s.tasks[pc.t].futures && CursorInv(r) && TaskPcInv(s, r, pc)
    ensures InOrder(Hold(s, th, r, pc), th, {}, {pc.t})
  {
    var s' := Hold(s, th, r, pc);
    if pc.then_.Walking? {
      ChainOutside(s, s', pc.then_.next, pc.then_.rest, Detached(th), pc.t);
    }
    assert TaskPcInv(s', r, pc);
  }

  /** Changing one task that is elsewhere leaves a chain alone. */
  lemma ChainOutside(s: State, s': State, ptr: Ptr, ts: seq<TaskId>, place: Place, t: TaskId)
    requires ChainAt(s, ptr, ts, place) && t in s.place && s.place[t] != place
    requires forall u <- s.tasks :: u != t ==> u in s'.tasks && s'.tasks[u] == s.tasks[u]
    requires forall u <- s.place :: u != t ==> u in s'.place && s'.place[u] == s.place[u]
    ensures ChainAt(s', ptr, ts, place)
  {
  }

  /** Until it closes the promise, a put only raises the satisfied flag. */
  lemma PutStepTouches(s: State, th: Thread, p: Promise, r: PromiseRec, pc: Pc)
    requires th in s.threads && Puts(s.threads[th], p) && Putting(s, th, p)
    requires r.head == s.promises[p].head && (s.promises[p].satisfied ==> r.satisfied)
    requires Puts(pc, p)
    requires !pc.PutRead? && !pc.PutReread? ==> pc.w != Satisfied
    requires pc.PutCas? || pc.PutReread? ==> r.satisfied
    ensures Touches(s, PutGoto(s, th, p, r, pc), th, {}, {})
  {
    PutStepEffect(s, th, p, r, pc);
    PutStepUntouched(s, th, p, r, pc);
  }

  lemma PutStepEffect(s: State, th: Thread, p: Promise, r: PromiseRec, pc: Pc)
    requires th in s.threads && p in s.promises
    requires r.head == s.promises[p].head && (s.promises[p].satisfied ==> r.satisfied)
    ensures Effect(s, PutGoto(s, th, p, r, pc), th)
  {
  }

  lemma PutStepPromise(s: State, th: Thread, p: Promise, r: PromiseRec, pc: Pc, q: Promise)
    requires th in s.threads && p in s.promises && p in s.putter && q in s.promises
    requires Puts(s.threads[th], p) && Puts(pc, p)
    requires r.head == s.promises[p].head
    ensures PromiseSame(s, PutGoto(s, th, p, r, pc), th, q)
  {
  }

  lemma PutStepTask(s: State, th: Thread, p: Promise, r: PromiseRec, pc: Pc, t: TaskId)
    requires th in s.threads && t in s.place
    requires Puts(s.threads[th], p) && Puts(pc, p)
    ensures TaskSame(s, PutGoto(s, th, p, r, pc), th, t)
  {
  }

  lemma PutStepUntouched(s: State, th: Thread, p: Promise, r: PromiseRec, pc: Pc)
    requires th in s.threads && p in s.promises && p in s.putter
    requires Puts(s.threads[th], p) && Puts(pc, p)
    requires r.head == s.promises[p].head
    ensures Untouched(s, PutGoto(s, th, p, r, pc), th, {}, {})
  {
    forall q <- s.promises
      ensures PromiseSame(s, PutGoto(s, th, p, r, pc), th, q)
    {
      PutStepPromise(s, th, p, r, pc, q);
    }
    forall t <- s.place
      ensures TaskSame(s, PutGoto(s, th, p, r, pc), th, t)
    {
      PutStepTask(s, th, p, r, pc, t);
    }
  }

  lemma AdvancedKeeps(s: State, r: TaskRec, pc: Pc)
    requires pc.Advance? && TaskPcInv(s, r, pc) && CursorInv(r)
    requires forall p <- r.futures :: p in s.promises
    ensures var (r', pc') := Advanced(r, pc);
            CursorInv(r') && TaskPcInv(s, r', pc')
  {
    ScanFollowsTheList(r.futures, r.index);
  }

  lemma AdvanceTouches(s: State, th: Thread)
    requires Enabled(s, Run(th)) && s.threads[th].Advance?
    requires PcInv(s, th, s.threads[th]) && TaskInv(s, s.threads[th].t)
    ensures Touches(s, RunThread(s, th), th, {}, {s.threads[th].t})
  {
    var pc := s.threads[th];
    AdvancedKeeps(s, s.tasks[pc.t], pc);
    var (r', pc') := Advanced(s.tasks[pc.t], pc);
    HeldStepTouches(s, th, r', pc');
  }

  lemma RegisterTouches(s: State, th: Thread)
    requires Enabled(s, Run(th)) && PcInv(s, th, s.threads[th])
    requires var pc := s.threads[th];
             || pc.ReadHead? || pc.SetNext?
             || (pc.CasHead? && s.promises[pc.p].head != pc.cur)
    requires TaskInv(s, s.threads[th].t)
    ensures Touches(s, RunThread(s, th), th, {}, {s.threads[th].t})
  {
    var s', t := RunThread(s, th), s.threads[th].t;
    HeldStepTouches(s, th, s'.tasks[t], s'.threads[th]);
  }

  lemma PutTouches(s: State, th: Thread)
    requires Enabled(s, Run(th))
    requires PcInv(s, th, s.threads[th])
    requires var pc := s.threads[th];
             || pc.PutRead? || pc.PutDatum? || pc.PutReread?
             || (pc.PutCas? && s.promises[pc.p].head != pc.w)
    ensures Touches(s, RunThread(s, th), th, {}, {})
  {
    var s', p := RunThread(s, th), s.threads[th].p;
    PutStepTouches(s, th, p, s'.promises[p], s'.threads[th]);
  }

  lemma Prepend(s: State, t: TaskId, ts: seq<TaskId>, place: Place)
    requires t in s.tasks && t in s.place && s.place[t] == place
    requires t !in ts && ChainAt(s, s.tasks[t].next, ts, place)
    ensures ChainAt(s, Ref(t), [t] + ts, place)
  {
  }

  /** What a thread knows when it lets go of the task `t`. */
  ghost predicate Holds(s: State, th: Thread, t: TaskId) {
    && th in s.threads && HasThen(s.threads[th]) && s.threads[th].t == t
    && t in s.tasks && t in s.place && s.place[t] == Held(th)
    && ThenInv(s, th, s.threads[th].then_)
    && TaskInv(s, t)
  }

  lemma EnlistEffect(s: State, th: Thread, t: TaskId, p: Promise, k: Then)
    requires Holds(s, th, t) && k == s.threads[th].then_
    requires p in s.promises && p in s.lists && !Closed(s, p)
    ensures Effect(s, Enlist(s, th, t, p, k), th)
  {
  }

  lemma EnlistUntouched(s: State, th: Thread, t: TaskId, p: Promise, k: Then)
    requires Holds(s, th, t) && k == s.threads[th].then_
    requires p in s.promises && p in s.lists && !Closed(s, p)
    ensures Untouched(s, Enlist(s, th, t, p, k), th, {p}, {t})
  {
  }

  lemma EnlistTask(s: State, th: Thread, t: TaskId, p: Promise, k: Then)
    requires t in s.tasks && TaskInv(s, t) && Registering(s, s.tasks[t], false, p)
    requires p in s.lists && !Closed(s, p)
    ensures TaskInv(Enlist(s, th, t, p, k), t)
  {
  }

  lemma EnlistInOrder(s: State, th: Thread, t: TaskId, p: Promise, k: Then)
    requires Holds(s, th, t) && k == s.threads[th].then_
    requires p in s.promises && !Closed(s, p) && PromiseInv(s, p)
    requires Registering(s, s.tasks[t], false, p)
    requires s.tasks[t].next == s.promises[p].head
    ensures InOrder(Enlist(s, th, t, p, k), th, {p}, {t})
  {
    var s' := Enlist(s, th, t, p, k);
    ChainOutside(s, s', s.promises[p].head, s.lists[p], Waiting(p), t);
    Prepend(s', t, s.lists[p], Waiting(p));
    EnlistTask(s, th, t, p, k);
    ReleasePc(s, s', th, t, k);
  }

  /** Once its task has gone elsewhere, the thread goes on with the rest of its walk. */
  lemma ReleasePc(s: State, s': State, th: Thread, t: TaskId, k: Then)
    requires Holds(s, th, t) && k == s.threads[th].then_
    requires s'.tasks == s.tasks && t in s'.place && s'.place == s.place[t := s'.place[t]]
    requires s'.putter == s.putter && s'.walked == s.walked
    requires forall p <- s.promises :: Closed(s, p) ==> Closed(s', p)
    ensures PcInv(s', th, Continue(k))
  {
    if k.Walking? {
      ChainOutside(s, s', k.next, k.rest, Detached(th), t);
    }
  }

  lemma EmitEffect(s: State, th: Thread, t: TaskId, k: Then)
    requires Holds(s, th, t) && k == s.threads[th].then_
    ensures Effect(s, Emit(s, th, t, k), th)
  {
  }

  lemma EmitUntouched(s: State, th: Thread, t: TaskId, k: Then)
    requires Holds(s, th, t) && k == s.threads[th].then_
    ensures Untouched(s, Emit(s, th, t, k), th, {}, {t})
  {
  }

  lemma EmitInOrder(s: State, th: Thread, t: TaskId, k: Then)
    requires Holds(s, th, t) && k == s.threads[th].then_
    requires |s.tasks[t].futures| <= s.tasks[t].index + 1
    requires ClosedUpTo(s, s.tasks[t].futures, |s.tasks[t].futures|)
    ensures InOrder(Emit(s, th, t, k), th, {}, {t})
    ensures ScheduleInv(s) ==> ScheduleInv(Emit(s, th, t, k))
  {
    ReleasePc(s, Emit(s, th, t, k), th, t, k);
  }

  lemma TakeEffect(s: State, th: Thread, p: Promise, t: TaskId, rest: seq<TaskId>)
    requires th in s.threads && s.threads[th] == Walk(p, Ref(t), rest) && PcInv(s, th, s.threads[th])
    ensures t in s.tasks && rest != [] && Effect(s, Take(s, th, p, t, rest), th)
  {
  }

  lemma TakeUntouched(s: State, th: Thread, p: Promise, t: TaskId, rest: seq<TaskId>)
    requires th in s.threads && s.threads[th] == Walk(p, Ref(t), rest) && PcInv(s, th, s.threads[th])
    ensures t in s.tasks && rest != [] && Untouched(s, Take(s, th, p, t, rest), th, {p}, {t})
  {
  }

  lemma TakeInOrder(s: State, th: Thread, p: Promise, t: TaskId, rest: seq<TaskId>)
    requires th in s.threads && s.threads[th] == Walk(p, Ref(t), rest) && PcInv(s, th, s.threads[th])
    requires p in s.promises && PromiseInv(s, p) && t in s.tasks && TaskInv(s, t)
    ensures rest != [] && InOrder(Take(s, th, p, t, rest), th, {p}, {t})
  {
    TakePc(s, th, p, t, rest);
    TakePromise(s, th, p, t, rest);
  }

  lemma TakePromise(s: State, th: Thread, p: Promise, t: TaskId, rest: seq<TaskId>)
    requires th in s.threads && s.threads[th] == Walk(p, Ref(t), rest)
    requires Closed(s, p) && p in s.putter && s.putter[p] == th && PromiseInv(s, p)
    requires t in s.tasks && rest != [] && rest[0] == t
    ensures PromiseInv(Take(s, th, p, t, rest), p)
  {
    var s' := Take(s, th, p, t, rest);
    assert s.walked[p] + rest == s'.walked[p] + rest[1..];
  }

  lemma TakePc(s: State, th: Thread, p: Promise, t: TaskId, rest: seq<TaskId>)
    requires th in s.threads && s.threads[th] == Walk(p, Ref(t), rest) && PcInv(s, th, s.threads[th])
    requires t in s.tasks && TaskInv(s, t)
    ensures rest != []
    ensures var s' := Take(s, th, p, t, rest);
            PcInv(s', th, s'.threads[th]) && TaskInv(s', t)
  {
    var s' := Take(s, th, p, t, rest);
    assert ChainAt(s', s.tasks[t].next, rest[1..], Detached(th));
  }

  lemma CloseMoves(s: State, th: Thread, p: Promise, w: Ptr, t: TaskId)
    requires th in s.threads && Putting(s, th, p) && PromiseInv(s, p) && t in s.place
    ensures var s' := Close(s, th, p, w);
            t in s'.place && (MayMove(s, s', th, t) || s'.place[t] == s.place[t])
  {
    if t in s.lists[p] {
      var i :| 0 <= i < |s.lists[p]| && s.lists[p][i] == t;
      assert s.place[t] == Waiting(p);
    }
  }

  lemma CloseEffect(s: State, th: Thread, p: Promise, w: Ptr)
    requires th in s.threads && Putting(s, th, p) && PromiseInv(s, p)
    ensures Effect(s, Close(s, th, p, w), th)
  {
    var s' := Close(s, th, p, w);
    forall t <- s.place
      ensures t in s'.place && (MayMove(s, s', th, t) || s'.place[t] == s.place[t])
    {
      CloseMoves(s, th, p, w, t);
    }
  }

  lemma CloseOtherPromise(s: State, th: Thread, p: Promise, w: Ptr, q: Promise)
    requires th in s.threads && Puts(s.threads[th], p) && Putting(s, th, p) && p in s.lists
    requires q in s.promises && q != p
    ensures PromiseSame(s, Close(s, th, p, w), th, q)
  {
  }

  lemma CloseOtherTask(s: State, th: Thread, p: Promise, w: Ptr, t: TaskId)
    requires th in s.threads && Puts(s.threads[th], p) && Putting(s, th, p) && p in s.lists
    requires t in s.place && t !in s.lists[p]
    ensures TaskSame(s, Close(s, th, p, w), th, t)
  {
  }

  lemma CloseUntouched(s: State, th: Thread, p: Promise, w: Ptr)
    requires th in s.threads && Puts(s.threads[th], p) && Putting(s, th, p) && p in s.lists
    ensures Untouched(s, Close(s, th, p, w), th, {p}, set t <- s.lists[p])
  {
    var s' := Close(s, th, p, w);
    forall q <- s.promises | q != p
      ensures PromiseSame(s, s', th, q)
    {
      CloseOtherPromise(s, th, p, w, q);
    }
    forall t <- s.place | t !in s.lists[p]
      ensures TaskSame(s, s', th, t)
    {
      CloseOtherTask(s, th, p, w, t);
    }
  }

  lemma CloseChain(s: State, th: Thread, p: Promise, w: Ptr)
    requires p in s.promises && p in s.lists
    requires ChainAt(s, w, s.lists[p], Waiting(p))
    ensures ChainAt(Close(s, th, p, w), w, s.lists[p], Detached(th))
  {
  }

  lemma CloseTask(s: State, th: Thread, p: Promise, w: Ptr, t: TaskId)
    requires th in s.threads && p in s.promises && p in s.lists && t in s.lists[p]
    requires t in s.tasks && TaskInv(s, t) && s.place[t] == Waiting(p)
    ensures TaskInv(Close(s, th, p, w), t)
  {
    var s', r := Close(s, th, p, w), s.tasks[t];
    forall k | 0 <= k < r.index + 1 && k < |r.futures|
      ensures Closed(s', r.futures[k])
    {
      assert k < r.index ==> Closed(s, r.futures[k]);
    }
  }

  lemma ClosePromise(s: State, th: Thread, p: Promise, w: Ptr)
    requires th in s.threads && Putting(s, th, p) && PromiseInv(s, p) && s.promises[p].satisfied
    ensures p in Close(s, th, p, w).promises && PromiseInv(Close(s, th, p, w), p)
  {
    assert NoDup(s.lists[p]);
  }

  lemma ClosePc(s: State, th: Thread, p: Promise, w: Ptr)
    requires th in s.threads && Putting(s, th, p) && PromiseInv(s, p) && w == s.promises[p].head
    ensures var s' := Close(s, th, p, w); th in s'.threads && PcInv(s', th, s'.threads[th])
  {
    CloseChain(s, th, p, w);
  }

  lemma CloseTasks(s: State, th: Thread, p: Promise, w: Ptr)
    requires th in s.threads && p in s.promises && PromiseInv(s, p)
    requires forall t <- s.lists[p] :: t in s.tasks && TaskInv(s, t)
    ensures forall t <- s.lists[p] :: t in Close(s, th, p, w).tasks && TaskInv(Close(s, th, p, w), t)
  {
    forall t <- s.lists[p]
      ensures t in Close(s, th, p, w).tasks && TaskInv(Close(s, th, p, w), t)
    {
      ListedWaits(s, p, t);
      CloseTask(s, th, p, w, t);
    }
  }

  lemma ListedWaits(s: State, p: Promise, t: TaskId)
    requires p in s.promises && PromiseInv(s, p) && t in s.lists[p]
    ensures t in s.place && s.place[t] == Waiting(p)
  {
    var i :| 0 <= i < |s.lists[p]| && s.lists[p][i] == t;
  }

  lemma EnlistTouches(s: State, th: Thread)
    requires Enabled(s, Run(th)) && PcInv(s, th, s.threads[th])
    requires s.threads[th].CasHead? && s.promises[s.threads[th].p].head == s.threads[th].cur
    requires TaskInv(s, s.threads[th].t) && PromiseInv(s, s.threads[th].p)
    ensures Touches(s, RunThread(s, th), th, {s.threads[th].p}, {s.threads[th].t})
  {
    var CasHead(t, k, _, p, _) := s.threads[th];
    EnlistEffect(s, th, t, p, k);
    EnlistUntouched(s, th, t, p, k);
    EnlistInOrder(s, th, t, p, k);
  }

  lemma EmitTouches(s: State, th: Thread)
    requires Enabled(s, Run(th)) && PcInv(s, th, s.threads[th]) && s.threads[th].Schedule?
    requires TaskInv(s, s.threads[th].t)
    ensures Touches(s, RunThread(s, th), th, {}, {s.threads[th].t})
  {
    var Schedule(t, k) := s.threads[th];
    EmitEffect(s, th, t, k);
    EmitUntouched(s, th, t, k);
    EmitInOrder(s, th, t, k);
  }

  lemma TakeTouches(s: State, th: Thread)
    requires Enabled(s, Run(th)) && PcInv(s, th, s.threads[th])
    requires s.threads[th].Walk? && s.threads[th].curr != Sentinel
    requires s.threads[th].p in s.promises && PromiseInv(s, s.threads[th].p)
    requires TaskInv(s, s.threads[th].curr.t)
    ensures Touches(s, RunThread(s, th), th, {s.threads[th].p}, {s.threads[th].curr.t})
  {
    var Walk(p, curr, rest) := s.threads[th];
    TakeEffect(s, th, p, curr.t, rest);
    TakeUntouched(s, th, p, curr.t, rest);
    TakeInOrder(s, th, p, curr.t, rest);
  }

  /** The parts of Touches for a step on one promise and the tasks in a set. */
  lemma AssembleTouches(s: State, s': State, th: Thread, p: Promise, ts: set<TaskId>)
    requires Effect(s, s', th) && Untouched(s, s', th, {p}, ts)
    requires p in s'.promises && PromiseInv(s', p)
    requires th in s'.threads && PcInv(s', th, s'.threads[th])
    requires forall t <- ts :: t in s'.tasks && TaskInv(s', t)
    requires ScheduleInv(s) ==> ScheduleInv(s')
    ensures Touches(s, s', th, {p}, ts)
  {
  }

  lemma CloseInOrder(s: State, th: Thread, p: Promise, w: Ptr)
    requires th in s.threads && s.threads[th] == PutCas(p, w) && Putting(s, th, p) && PromiseInv(s, p)
    requires s.promises[p].satisfied && w == s.promises[p].head
    requires forall t <- s.lists[p] :: t in s.tasks && TaskInv(s, t)
    ensures Touches(s, Close(s, th, p, w), th, {p}, set t <- s.lists[p])
  {
    CloseEffect(s, th, p, w);
    CloseUntouched(s, th, p, w);
    ClosePromise(s, th, p, w);
    ClosePc(s, th, p, w);
    CloseTasks(s, th, p, w);
    CloseSchedule(s, th, p, w);
    AssembleTouches(s, Close(s, th, p, w), th, p, set t <- s.lists[p]);
  }

  lemma CloseTouches(s: State, th: Thread)
    requires Enabled(s, Run(th)) && PcInv(s, th, s.threads[th])
    requires s.threads[th].PutCas? && s.promises[s.threads[th].p].head == s.threads[th].w
    requires PromiseInv(s, s.threads[th].p)
    requires forall t <- s.lists[s.threads[th].p] :: t in s.tasks && TaskInv(s, t)
    ensures Touches(s, RunThread(s, th), th, {s.threads[th].p}, set t <- s.lists[s.threads[th].p])
  {
    var PutCas(p, w) := s.threads[th];
    CloseInOrder(s, th, p, w);
  }

  lemma CloseSchedule(s: State, th: Thread, p: Promise, w: Ptr)
    requires Putting(s, th, p) && PromiseInv(s, p)
    ensures ScheduleInv(s) ==> ScheduleInv(Close(s, th, p, w))
  {
  }

  lemma WalkEndTouches(s: State, th: Thread)
    requires Enabled(s, Run(th)) && PcInv(s, th, s.threads[th])
    requires s.threads[th].Walk? && s.threads[th].curr == Sentinel
    requires s.threads[th].p in s.promises && PromiseInv(s, s.threads[th].p)
    ensures Touches(s, RunThread(s, th), th, {s.threads[th].p}, {})
  {
    WalkEndEffect(s, th);
    WalkEndInOrder(s, th, s.threads[th].p);
  }

  lemma WalkEndEffect(s: State, th: Thread)
    requires th in s.threads && s.threads[th].Walk? && s.threads[th].rest == []
    ensures Effect(s, Goto(s, th, Idle), th)
    ensures Untouched(s, Goto(s, th, Idle), th, {s.threads[th].p}, {})
  {
  }

  lemma WalkEndInOrder(s: State, th: Thread, p: Promise)
    requires th in s.threads && s.threads[th].Walk? && s.threads[th].p == p && s.threads[th].rest == []
    requires Closed(s, p) && PromiseInv(s, p)
    ensures InOrder(Goto(s, th, Idle), th, {p}, {})
  {
  }

  lemma SpawnTouches(s: State, a: Action)
    requires Enabled(s, a) && a.CallSpawn? && a.t !in s.place
    ensures Touches(s, Step(s, a), a.th, {}, {a.t})
  {
    SpawnEffect(s, a);
    SpawnUntouched(s, a);
    SpawnInOrder(s, a);
  }

  lemma SpawnEffect(s: State, a: Action)
    requires Enabled(s, a) && a.CallSpawn? && a.t !in s.place
    ensures Effect(s, Step(s, a), a.th)
  {
  }

  lemma SpawnUntouched(s: State, a: Action)
    requires Enabled(s, a) && a.CallSpawn? && a.t !in s.place
    ensures Untouched(s, Step(s, a), a.th, {}, {a.t})
  {
  }

  lemma SpawnInOrder(s: State, a: Action)
    requires Enabled(s, a) && a.CallSpawn?
    ensures InOrder(Step(s, a), a.th, {}, {a.t})
  {
  }

  lemma CallPutTouches(s: State, a: Action)
    requires Enabled(s, a) && a.CallPut? && PromiseInv(s, a.p)
    ensures Touches(s, Step(s, a), a.th, {}, {})
  {
    CallPutEffect(s, a);
    CallPutUntouched(s, a);
  }

  lemma CallPutEffect(s: State, a: Action)
    requires Enabled(s, a) && a.CallPut?
    ensures Effect(s, Step(s, a), a.th)
  {
  }

  lemma CallPutUntouched(s: State, a: Action)
    requires Enabled(s, a) && a.CallPut? && PromiseInv(s, a.p)
    ensures Untouched(s, Step(s, a), a.th, {}, {})
    ensures InOrder(Step(s, a), a.th, {}, {})
  {
  }

  /** A thread advancing a task keeps the invariant. */
  lemma InvHeld(s: State, th: Thread)
    requires Inv(s) && Enabled(s, Run(th)) && HasThen(s.threads[th])
    ensures Inv(RunThread(s, th))
  {
    var s', pc := RunThread(s, th), s.threads[th];
    assert PcInv(s, th, pc) && TaskInv(s, pc.t);
    if pc.Advance? {
      AdvanceTouches(s, th);
      InvTouches(s, s', th, {}, {pc.t});
    } else if pc.Schedule? {
      EmitTouches(s, th);
      InvTouches(s, s', th, {}, {pc.t});
    } else if pc.CasHead? && s.promises[pc.p].head == pc.cur {
      assert PromiseInv(s, pc.p);
      EnlistTouches(s, th);
      InvTouches(s, s', th, {pc.p}, {pc.t});
    } else {
      RegisterTouches(s, th);
      InvTouches(s, s', th, {}, {pc.t});
    }
  }

  /** A thread putting a promise keeps the invariant. */
  lemma InvPutting(s: State, th: Thread)
    requires Inv(s) && Enabled(s, Run(th)) && !HasThen(s.threads[th])
    ensures Inv(RunThread(s, th))
  {
    var s', pc := RunThread(s, th), s.threads[th];
    assert PcInv(s, th, pc) && PromiseInv(s, pc.p);
    if pc.Walk? && pc.curr == Sentinel {
      WalkEndTouches(s, th);
      InvTouches(s, s', th, {pc.p}, {});
    } else if pc.Walk? {
      assert TaskInv(s, pc.curr.t);
      TakeTouches(s, th);
      InvTouches(s, s', th, {pc.p}, {pc.curr.t});
    } else if pc.PutCas? && s.promises[pc.p].head == pc.w {
      CloseTouches(s, th);
      InvTouches(s, s', th, {pc.p}, set t <- s.lists[pc.p]);
    } else {
      PutTouches(s, th);
      InvTouches(s, s', th, {}, {});
    }
  }

  lemma InvStep(s: State, a: Action)
    requires Inv(s) && Enabled(s, a)
    ensures Inv(Step(s, a))
  {
    match a {
      case CallSpawn(th, t, _) =>
        SpawnTouches(s, a);
        InvTouches(s, Step(s, a), th, {}, {t});
      case CallPut(th, _) =>
        CallPutTouches(s, a);
        InvTouches(s, Step(s, a), th, {}, {});
      case Run(th) =>
        if HasThen(s.threads[th]) {
          InvHeld(s, th);
        } else {
          InvPutting(s, th);
        }
    }
  }

  // ---------------------------------------------------------------------
  // Results about whole runs
  // ---------------------------------------------------------------------

  /** The `i`-th action leads from the `i`-th state to the next. */
  predicate StepAt(states: seq<State>, actions: seq<Action>, i: nat)
    requires i < |actions| && |states| == |actions| + 1
  {
    Enabled(states[i], actions[i]) && states[i + 1] == Step(states[i], actions[i])
  }

  ghost predicate IsRun(states: seq<State>, actions: seq<Action>) {
    && |states| == |actions| + 1
    && Init(states[0])
    && forall i :: 0 <= i < |actions| ==> StepAt(states, actions, i)
  }

  lemma RunsKeepInv(states: seq<State>, actions: seq<Action>, i: nat)
    requires IsRun(states, actions) && i < |states|
    ensures Inv(states[i])
  {
    for n := 0 to i
      invariant Inv(states[n])
    {
      assert StepAt(states, actions, n);
      InvStep(states[n], actions[n]);
    }
  }

  /** A thread inside a call can always take its next step: it never follows NULL or a stale link. */
  lemma ThreadsNeverStuck(states: seq<State>, actions: seq<Action>, i: nat, th: Thread)
    requires IsRun(states, actions) && i < |states|
    requires th in states[i].threads && states[i].threads[th] != Idle
    ensures Enabled(states[i], Run(th))
  {
    RunsKeepInv(states, actions, i);
    var s := states[i];
    assert PcInv(s, th, s.threads[th]);
    if !HasThen(s.threads[th]) {
      assert PromiseInv(s, s.threads[th].p);
    }
  }

  /** A task is scheduled at most once, and only with every one of its futures satisfied. */
  lemma ScheduledAreReady(states: seq<State>, actions: seq<Action>, i: nat)
    requires IsRun(states, actions) && i < |states|
    ensures var s := states[i];
            && NoDup(s.scheduled)
            && forall t <- s.scheduled ::
                 && t in s.tasks
                 && forall p <- s.tasks[t].futures :: p in s.promises && s.promises[p].satisfied
  {
    RunsKeepInv(states, actions, i);
    var s := states[i];
    forall t <- s.scheduled
      ensures t in s.tasks
      ensures forall p <- s.tasks[t].futures :: p in s.promises && s.promises[p].satisfied
    {
      assert t in s.place && s.place[t] == Scheduled;
      assert TaskInv(s, t);
      forall p <- s.tasks[t].futures
        ensures p in s.promises && s.promises[p].satisfied
      {
        assert Closed(s, p) && PromiseInv(s, p);
      }
    }
  }

  /** Some thread is still advancing the task or has it on a list it detached. */
  ghost predicate InHand(s: State, t: TaskId) {
    exists th <- s.threads :: (HasThen(s.threads[th]) && s.threads[th].t == t) || t in Rest(s.threads[th])
  }

  /**
    No wakeup is lost.  A spawned task that no thread has in hand is scheduled if
    and only if all its futures have been put; if not, it is on the list of the
    first future that has not.
   */
  lemma NoTaskForgotten(states: seq<State>, actions: seq<Action>, i: nat, t: TaskId)
    requires IsRun(states, actions) && i < |states|
    requires t in states[i].tasks && !InHand(states[i], t)
    ensures var s, fs := states[i], states[i].tasks[t].futures;
            && (t in s.scheduled <==> forall p <- fs :: Closed(s, p))
            && (t !in s.scheduled ==>
                  exists k | 0 <= k < |fs| ::
                    ClosedUpTo(s, fs, k) && !Closed(s, fs[k]) && fs[k] in s.lists && t in s.lists[fs[k]])
  {
    RunsKeepInv(states, actions, i);
    var s := states[i];
    var r := s.tasks[t];
    assert TaskInv(s, t);
    match s.place[t] {
      case Held(th) =>
        assert false;
      case Detached(th) =>
        assert false;
      case Scheduled =>
        assert forall p <- r.futures :: Closed(s, p);
      case Waiting(p) =>
        assert PromiseInv(s, p);
        assert !Closed(s, r.futures[r.index]);
    }
  }

  /** A put that has been called has closed its promise or is on its way to do so. */
  predicate UnderWay(s: State, p: Promise) {
    p in s.putter ==> p in s.promises && (Closed(s, p) || (s.putter[p] in s.threads && Puts(s.threads[s.putter[p]], p)))
  }

  lemma CallKeepsUnderWay(s: State, a: Action, p: Promise)
    requires Enabled(s, a) && !a.Run? && UnderWay(s, p)
    ensures UnderWay(Step(s, a), p)
  {
  }

  lemma AdvanceKeepsUnderWay(s: State, th: Thread, p: Promise)
    requires Enabled(s, Run(th)) && UnderWay(s, p)
    requires s.threads[th].Advance? || s.threads[th].Schedule?
    ensures UnderWay(RunThread(s, th), p)
  {
  }

  lemma RegisterKeepsUnderWay(s: State, th: Thread, p: Promise)
    requires Enabled(s, Run(th)) && PcInv(s, th, s.threads[th]) && UnderWay(s, p)
    requires s.threads[th].ReadHead? || s.threads[th].SetNext? || s.threads[th].CasHead?
    ensures UnderWay(RunThread(s, th), p)
  {
  }

  lemma PutKeepsUnderWay(s: State, th: Thread, p: Promise)
    requires Enabled(s, Run(th)) && UnderWay(s, p)
    requires s.threads[th].PutRead? || s.threads[th].PutDatum? || s.threads[th].PutReread?
    ensures UnderWay(RunThread(s, th), p)
  {
  }

  lemma SwapKeepsUnderWay(s: State, th: Thread, p: Promise)
    requires Enabled(s, Run(th)) && UnderWay(s, p) && s.threads[th].PutCas?
    ensures UnderWay(RunThread(s, th), p)
  {
  }

  lemma WalkKeepsUnderWay(s: State, th: Thread, p: Promise)
    requires Enabled(s, Run(th)) && UnderWay(s, p) && s.threads[th].Walk?
    ensures UnderWay(RunThread(s, th), p)
  {
  }

  lemma StepKeepsUnderWay(s: State, a: Action, p: Promise)
    requires Enabled(s, a) && UnderWay(s, p) && (a.Run? ==> PcInv(s, a.th, s.threads[a.th]))
    ensures UnderWay(Step(s, a), p)
  {
    if a.Run? {
      match s.threads[a.th] {
        case Advance(_, _, _) => AdvanceKeepsUnderWay(s, a.th, p);
        case Schedule(_, _) => AdvanceKeepsUnderWay(s, a.th, p);
        case PutCas(_, _) => SwapKeepsUnderWay(s, a.th, p);
        case Walk(_, _, _) => WalkKeepsUnderWay(s, a.th, p);
        case PutRead(_) => PutKeepsUnderWay(s, a.th, p);
        case PutDatum(_, _) => PutKeepsUnderWay(s, a.th, p);
        case PutReread(_) => PutKeepsUnderWay(s, a.th, p);
        case _ => RegisterKeepsUnderWay(s, a.th, p);
      }
    } else {
      CallKeepsUnderWay(s, a, p);
    }
  }

  lemma KeepsUnderWay(s: State, a: Action, p: Promise)
    requires Inv(s) && Enabled(s, a) && UnderWay(s, p)
    ensures UnderWay(Step(s, a), p)
  {
    StepKeepsUnderWay(s, a, p);
  }

  lemma RunsKeepUnderWay(states: seq<State>, actions: seq<Action>, i: nat, p: Promise)
    requires IsRun(states, actions) && i < |states|
    ensures UnderWay(states[i], p)
  {
    for n := 0 to i
      invariant UnderWay(states[n], p)
    {
      RunsKeepInv(states, actions, n);
      assert StepAt(states, actions, n);
      KeepsUnderWay(states[n], actions[n], p);
    }
  }

  /**
    Of every put that has been called: the promise is closed, and satisfied, exactly if
    the thread is past its swap, in particular if the put has returned.
   */
  lemma ReturnedPutHasClosed(states: seq<State>, actions: seq<Action>, i: nat, p: Promise)
    requires IsRun(states, actions) && i < |states| && p in states[i].putter
    ensures var s := states[i];
            && (Closed(s, p) <==> s.putter[p] in s.threads && !Puts(s.threads[s.putter[p]], p))
            && (Closed(s, p) ==> s.promises[p].satisfied)
  {
    RunsKeepInv(states, actions, i);
    RunsKeepUnderWay(states, actions, i, p);
    var s := states[i];
    if Closed(s, p) {
      assert PromiseInv(s, p);
    }
    if s.putter[p] in s.threads {
      assert PcInv(s, s.putter[p], s.threads[s.putter[p]]);
    }
  }

  /** No promise is closed that nobody put. */
  lemma ClosedOnlyByPut(states: seq<State>, actions: seq<Action>, i: nat, p: Promise)
    requires IsRun(states, actions) && i < |states| && Closed(states[i], p)
    ensures p in states[i].putter
  {
    RunsKeepInv(states, actions, i);
    assert PromiseInv(states[i], p);
  }

  /** At rest every task has been scheduled exactly when a put has been called on each of its futures. */
  lemma AtRestPutMeansScheduled(states: seq<State>, actions: seq<Action>, i: nat)
    requires IsRun(states, actions) && i < |states|
    requires forall th <- states[i].threads :: states[i].threads[th] == Idle
    ensures var s := states[i];
            forall t <- s.tasks ::
              t in s.scheduled <==> forall p <- s.tasks[t].futures :: p in s.putter
  {
    var s := states[i];
    forall p: Promise
      ensures Closed(s, p) <==> p in s.putter
    {
      RunsKeepUnderWay(states, actions, i, p);
      if Closed(s, p) {
        ClosedOnlyByPut(states, actions, i, p);
      }
    }
    forall t <- s.tasks
      ensures t in s.scheduled <==> forall p <- s.tasks[t].futures :: p in s.putter
    {
      NoTaskForgotten(states, actions, i, t);
    }
  }

  /** The places a task can be found by looking at threads, lists and the schedule. */
  ghost predicate FoundAt(s: State, t: TaskId, place: Place) {
    match place
    case Held(th) => th in s.threads && HasThen(s.threads[th]) && s.threads[th].t == t
    case Detached(th) => th in s.threads && t in Rest(s.threads[th])
    case Waiting(p) => p in s.promises && !Closed(s, p) && p in s.lists && t in s.lists[p]
    case Scheduled => t in s.scheduled
  }

  lemma FoundWithThread(s: State, t: TaskId, th: Thread)
    requires t in s.tasks && TaskInv(s, t)
    requires th in s.threads && PcInv(s, th, s.threads[th])
    ensures FoundAt(s, t, Held(th)) <==> s.place[t] == Held(th)
    ensures FoundAt(s, t, Detached(th)) <==> s.place[t] == Detached(th)
  {
    var rest := Rest(s.threads[th]);
    if t in rest {
      var i :| 0 <= i < |rest| && rest[i] == t;
      assert ChainAt(s, if s.threads[th].Walk? then s.threads[th].curr else s.threads[th].then_.next, rest, Detached(th));
    }
  }

  lemma FoundOnList(s: State, t: TaskId, p: Promise)
    requires t in s.tasks && TaskInv(s, t)
    requires p in s.promises && PromiseInv(s, p)
    ensures FoundAt(s, t, Waiting(p)) <==> s.place[t] == Waiting(p)
  {
    if t in s.lists[p] {
      ListedWaits(s, p, t);
    }
  }

  lemma FoundScheduled(s: State, t: TaskId)
    requires t in s.tasks && TaskInv(s, t) && ScheduleInv(s)
    ensures FoundAt(s, t, Scheduled) <==> s.place[t] == Scheduled
  {
  }

  lemma FoundWhereItIs(s: State, t: TaskId, place: Place)
    requires Inv(s) && t in s.tasks
    ensures t in s.place && (FoundAt(s, t, place) <==> place == s.place[t])
  {
    assert TaskInv(s, t);
    match place {
      case Held(th) => if th in s.threads { FoundWithThread(s, t, th); }
      case Detached(th) => if th in s.threads { FoundWithThread(s, t, th); }
      case Waiting(p) => if p in s.promises { FoundOnList(s, t, p); }
      case Scheduled => FoundScheduled(s, t);
    }
  }

  lemma ListIsChain(s: State, p: Promise)
    requires Inv(s) && p in s.promises
    ensures p in s.lists && (!Closed(s, p) ==> Chain(s, s.promises[p].head, s.lists[p]))
  {
    assert PromiseInv(s, p);
  }

  /** Every spawned task is in exactly one place; the lists are what the links spell out. */
  lemma ExactlyOnePlace(states: seq<State>, actions: seq<Action>, i: nat, t: TaskId)
    requires IsRun(states, actions) && i < |states| && t in states[i].tasks
    ensures var s := states[i];
            && t in s.place
            && (forall place :: FoundAt(s, t, place) <==> place == s.place[t])
            && (forall p <- s.promises :: p in s.lists &&
                  (!Closed(s, p) ==> Chain(s, s.promises[p].head, s.lists[p])))
  {
    RunsKeepInv(states, actions, i);
    var s := states[i];
    FoundWhereItIs(s, t, Scheduled);
    forall place
      ensures FoundAt(s, t, place) <==> place == s.place[t]
    {
      FoundWhereItIs(s, t, place);
    }
    forall p <- s.promises
      ensures p in s.lists && (!Closed(s, p) ==> Chain(s, s.promises[p].head, s.lists[p]))
    {
      ListIsChain(s, p);
    }
  }

  /** A put visits the tasks it detached in list order, each once, and ends having visited them all. */
  lemma PutVisitsEachDetachedTaskOnce(states: seq<State>, actions: seq<Action>, i: nat, p: Promise)
    requires IsRun(states, actions) && i < |states| && Closed(states[i], p)
    ensures var s := states[i];
            && p in s.chain && p in s.walked && p in s.putter && s.putter[p] in s.threads
            && NoDup(s.chain[p]) && s.walked[p] <= s.chain[p]
            && (!Walks(s.threads[s.putter[p]], p) ==> s.walked[p] == s.chain[p])
  {
    RunsKeepInv(states, actions, i);
    assert PromiseInv(states[i], p);
  }

  /**
    Across all suspended and resumed calls the cursor has visited a prefix of the
    futures, in order, and all of them once the task is scheduled; the second call
    made by try_schedule_async finds the cursor at the end and registers nothing.
   */
  lemma CursorFollowsFutures(states: seq<State>, actions: seq<Action>, i: nat, t: TaskId)
    requires IsRun(states, actions) && i < |states| && t in states[i].tasks
    ensures var s := states[i];
            && s.tasks[t].visited <= s.tasks[t].futures
            && (t in s.scheduled ==> s.tasks[t].visited == s.tasks[t].futures)
            && (forall th <- s.threads | HasThen(s.threads[th]) && s.threads[th].t == t ::
                  && (s.threads[th].Advance? && s.threads[th].again ==>
                        Scan(s.tasks[t].futures, s.tasks[t].index) == Done)
                  && !(s.threads[th].ReadHead? && s.threads[th].again))
  {
    RunsKeepInv(states, actions, i);
    var s := states[i];
    assert TaskInv(s, t);
    forall th <- s.threads | HasThen(s.threads[th]) && s.threads[th].t == t
      ensures s.threads[th].Advance? && s.threads[th].again ==>
                Scan(s.tasks[t].futures, s.tasks[t].index) == Done
      ensures !(s.threads[th].ReadHead? && s.threads[th].again)
    {
      assert PcInv(s, th, s.threads[th]);
    }
  }
}
