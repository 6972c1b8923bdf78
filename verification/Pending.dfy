/**
  The pending-operation list of modules/common/hclib-module-common.h as a machine
  of atomic steps: any number of threads append operations, and polling tasks walk
  the list, unlink the operations that have completed and release them.

  `list`, `status`, `poller`, `released` and the position `rest` (how many
  operations there are from the current one to the end of the list) are auxiliary:
  they record and never influence a step.
 */
module PendingList {
  import opened Common

  type Op = nat
  type Thread = nat
  type Ptr = Option<Op>

  datatype Pc =
    | Idle
    | AppendRead(op: Op)
    | AppendCas(op: Op)
    | SpawnPoller
    | PollHead
    | PollNext(prev: Ptr, op: Op, rest: nat)
    | PollTest(prev: Ptr, op: Op, next: Ptr, rest: nat)
    | PollCas(op: Op, next: Ptr, rest: nat)
    | PollFix(front: Op, op: Op, next: Ptr, rest: nat)
    | PollUnlink(before: Op, op: Op, next: Ptr, rest: nat)
    | Release(prev: Ptr, op: Op, next: Ptr, more: bool, rest: nat)

  /** Where an operation is: with its appender, on the list, unlinked by a poller, or released. */
  datatype Status = Mine(th: Thread) | Listed | Taken(th: Thread) | Released

  /** Who will still touch the list. */
  datatype Poller = Nobody | Appender(th: Thread) | Spawned | Running(th: Thread)

  datatype State = State(
    head: Ptr,
    next: map<Op, Ptr>,
    threads: map<Thread, Pc>,
    spawned: nat,              // polling tasks spawned and not started
    list: seq<Op>,
    status: map<Op, Status>,
    poller: Poller,
    released: seq<Op>,
    aborted: Option<nat>)      // the line of a failed assertion

  /** `done` is the answer of the completion callback, where one is asked for. */
  datatype Action =
    | CallAppend(th: Thread, op: Op)
    | StartPoller(th: Thread)
    | Run(th: Thread, done: bool)

  predicate Init(s: State) {
    && s.head == None && s.next == map[] && s.spawned == 0
    && (forall th <- s.threads :: s.threads[th] == Idle)
    && s.list == [] && s.status == map[] && s.poller == Nobody && s.released == []
    && s.aborted == None
  }

  predicate Enabled(s: State, a: Action) {
    && s.aborted == None
    && match a
       case CallAppend(th, op) => th in s.threads && s.threads[th] == Idle && op !in s.status && op !in s.next
       case StartPoller(th) => th in s.threads && s.threads[th] == Idle && s.spawned > 0
       case Run(th, _) => th in s.threads && Grounded(s, s.threads[th])
  }

  /** The thread has a next step, and the operations it dereferences have not been freed. */
  predicate Grounded(s: State, pc: Pc) {
    match pc
    case Idle => false
    case AppendRead(op) => op in s.next
    case AppendCas(op) => op in s.next
    case SpawnPoller => true
    case PollHead => true
    case PollNext(_, op, _) => op in s.next
    case PollTest(_, op, _, _) => op in s.next
    case PollCas(op, _, _) => s.head.Some?
    case PollFix(front, _, _, _) => front in s.next
    case PollUnlink(prev, _, _, _) => prev in s.next
    case Release(_, op, _, _, _) => op in s.next
  }

  function Goto(s: State, th: Thread, pc: Pc): State {
    s.(threads := s.threads[th := pc])
  }

  /** The end of the inner loop body, and of the outer one when the list has been walked. */
  function Continue(prev: Ptr, next: Ptr, more: bool, rest: nat): Pc {
    match next
    case Some(op) => PollNext(prev, op, rest)
    case None => if more then PollHead else Idle
  }

  function Step(s: State, a: Action): State
    requires Enabled(s, a)
  {
    match a
    case CallAppend(th, op) =>
      Goto(s.(next := s.next[op := None], status := s.status[op := Mine(th)]), th, AppendRead(op))
    case StartPoller(th) =>
      Goto(s.(spawned := s.spawned - 1, poller := Running(th)), th, PollHead)
    case Run(th, done) =>
      RunThread(s, th, done)
  }

  function RunThread(s: State, th: Thread, done: bool): State
    requires Enabled(s, Run(th, done))
  {
    match s.threads[th]
    case AppendRead(op) =>
      Goto(s.(next := s.next[op := s.head]), th, AppendCas(op))
    case AppendCas(op) =>
      if s.head == s.next[op] then Publish(s, th, op)
      else Goto(s.(next := s.next[op := s.head]), th, AppendCas(op))
    case SpawnPoller =>
      Goto(s.(spawned := s.spawned + 1, poller := Spawned), th, Idle)
    case PollHead =>
      if s.head.None? then s.(aborted := Some(20))
      else Goto(s, th, PollNext(None, s.head.value, |s.list|))
    case PollNext(prev, op, rest) =>
      Goto(s, th, PollTest(prev, op, s.next[op], rest))
    case PollTest(prev, op, next, rest) =>
      Goto(s, th,
           if !done then Continue(Some(op), next, true, if rest > 0 then rest - 1 else 0)
           else if prev.None? then PollCas(op, next, rest)
           else PollUnlink(prev.value, op, next, rest))
    case PollCas(op, next, rest) =>
      if s.head == Some(op) then TakeHead(s, th, op, next, rest)
      else Goto(s, th, PollFix(s.head.value, op, next, rest))
    case PollFix(front, op, next, rest) =>
      if s.next[front] == Some(op) then Unlink(s, th, front, op, next, rest)
      else s.(aborted := Some(45))
    case PollUnlink(prev, op, next, rest) =>
      if s.next[prev] == Some(op) then Unlink(s, th, prev, op, next, rest)
      else s.(aborted := Some(62))
    case Release(prev, op, next, more, rest) =>
      Goto(s.(released := s.released + [op], status := s.status[op := Released], next := s.next - {op}),
           th, Continue(prev, next, more, rest))
    case _ => s
  }

  /** The append takes effect; whoever finds the list empty has to start a poller. */
  function Publish(s: State, th: Thread, op: Op): State {
    var empty := s.head.None?;
    Goto(s.(head := Some(op), list := [op] + s.list, status := s.status[op := Listed],
            poller := if empty then Appender(th) else s.poller),
         th, if empty then SpawnPoller else Idle)
  }

  /** The compare-and-swap removes the head; a poller that empties the list is through with it. */
  function TakeHead(s: State, th: Thread, op: Op, next: Ptr, rest: nat): State {
    Goto(s.(head := next, list := if s.list == [] then [] else s.list[1..],
            status := s.status[op := Taken(th)],
            poller := if next.None? then Nobody else s.poller),
         th, Release(None, op, next, next.Some?, if rest > 0 then rest - 1 else 0))
  }

  /** The operation before `op` is linked to the one after it. */
  function Unlink(s: State, th: Thread, prev: Op, op: Op, next: Ptr, rest: nat): State {
    var k := |s.list| - rest;
    Goto(s.(next := s.next[prev := next],
            list := if 0 <= k < |s.list| then Without(s.list, k) else s.list,
            status := s.status[op := Taken(th)]),
         th, Release(Some(prev), op, next, true, if rest > 0 then rest - 1 else 0))
  }

  // ---------------------------------------------------------------------
  // The invariant
  // ---------------------------------------------------------------------

  function Link(list: seq<Op>, i: int): Ptr {
    if 0 <= i < |list| then Some(list[i]) else None
  }

  predicate NoDup(list: seq<Op>) {
    forall i, j :: 0 <= i < j < |list| ==> list[i] != list[j]
  }

  /** Following `next` from the head runs through exactly `list`. */
  predicate Chain(head: Ptr, next: map<Op, Ptr>, list: seq<Op>) {
    && head == Link(list, 0)
    && NoDup(list)
    && (forall i :: 0 <= i < |list| ==> list[i] in next)
    && (forall i {:trigger Link(list, i)} :: 0 < i <= |list| ==> next[list[i - 1]] == Link(list, i))
  }

  /** `op` has `rest - 1` operations behind it and `prev`, if any, directly before it. */
  predicate At(list: seq<Op>, prev: Ptr, op: Op, rest: nat) {
    && 1 <= rest <= |list|
    && list[|list| - rest] == op
    && (prev.Some? ==> rest < |list| && list[|list| - rest - 1] == prev.value)
  }

  /** The operations from `next` on are the last `rest` of the list. */
  predicate From(list: seq<Op>, prev: Ptr, next: Ptr, rest: nat) {
    && list != []
    && (if next.Some? then At(list, prev, next.value, rest) else rest == 0)
  }

  predicate After(list: seq<Op>, next: Ptr, rest: nat) {
    1 <= rest <= |list| && next == Link(list, |list| - rest + 1)
  }

  /** The thread is a poller that will look at the list again. */
  predicate Polls(pc: Pc) {
    match pc
    case PollHead => true
    case PollNext(_, _, _) => true
    case PollTest(_, _, _, _) => true
    case PollCas(_, _, _) => true
    case PollFix(_, _, _, _) => true
    case PollUnlink(_, _, _, _) => true
    case Release(_, _, _, more, _) => more
    case _ => false
  }

  predicate PollInv(list: seq<Op>, pc: Pc) {
    match pc
    case PollHead => list != []
    case PollNext(prev, op, rest) => At(list, prev, op, rest)
    case PollTest(prev, op, next, rest) => At(list, prev, op, rest) && After(list, next, rest)
    case PollCas(op, next, rest) => At(list, None, op, rest) && After(list, next, rest)
    case PollFix(front, op, next, rest) =>
      At(list, None, op, rest) && After(list, next, rest) && front in list
    case PollUnlink(prev, op, next, rest) => At(list, Some(prev), op, rest) && After(list, next, rest)
    case Release(prev, op, next, more, rest) => more ==> From(list, prev, next, rest)
    case _ => true
  }

  predicate PcInv(s: State, th: Thread, pc: Pc) {
    && (Polls(pc) <==> s.poller == Running(th))
    && (pc.SpawnPoller? <==> s.poller == Appender(th))
    && (Polls(pc) ==> PollInv(s.list, pc))
    && match pc
       case AppendRead(op) => op in s.status && s.status[op] == Mine(th)
       case AppendCas(op) => op in s.status && s.status[op] == Mine(th)
       case Release(_, op, next, more, _) =>
         op in s.status && s.status[op] == Taken(th) && (!more ==> next.None?)
       case _ => true
  }

  predicate StatusInv(s: State, op: Op)
    requires op in s.status
  {
    match s.status[op]
    case Mine(th) => op in s.next && th in s.threads && (s.threads[th] == AppendRead(op) || s.threads[th] == AppendCas(op))
    case Listed => op in s.list
    case Taken(th) => op in s.next && th in s.threads && s.threads[th].Release? && s.threads[th].op == op
    case Released => op in s.released && op !in s.next
  }

  predicate PollerInv(s: State) {
    && (s.list == [] <==> s.poller == Nobody)
    && s.spawned == (if s.poller == Spawned then 1 else 0)
    && (s.poller.Appender? || s.poller.Running? ==> s.poller.th in s.threads)
  }

  predicate PcsInv(s: State) {
    forall th <- s.threads :: PcInv(s, th, s.threads[th])
  }

  predicate StatusesInv(s: State) {
    && (forall op <- s.status :: StatusInv(s, op))
    && (forall i :: 0 <= i < |s.list| ==> s.list[i] in s.status && s.status[s.list[i]] == Listed)
    && (forall i :: 0 <= i < |s.released| ==> s.released[i] in s.status && s.status[s.released[i]] == Released)
    && NoDup(s.released)
  }

  predicate Inv(s: State) {
    && Chain(s.head, s.next, s.list)
    && PcsInv(s)
    && StatusesInv(s)
    && PollerInv(s)
    && (s.aborted.Some? ==> s.aborted == Some(45))
  }

  // ---------------------------------------------------------------------
  // Linking and unlinking
  // ---------------------------------------------------------------------

  lemma ChainPush(head: Ptr, next: map<Op, Ptr>, list: seq<Op>, op: Op)
    requires Chain(head, next, list) && op in next && op !in list && next[op] == head
    ensures Chain(Some(op), next, [op] + list)
  {
    var list' := [op] + list;
    forall i {:trigger Link(list', i)} | 0 < i <= |list'|
      ensures next[list'[i - 1]] == Link(list', i)
    {
      assert Link(list', i) == Link(list, i - 1);
    }
  }

  lemma ChainPop(head: Ptr, next: map<Op, Ptr>, list: seq<Op>)
    requires Chain(head, next, list) && list != []
    ensures Chain(Link(list, 1), next, list[1..])
    ensures forall x :: x in list[1..] <==> x in list && x != list[0]
  {
    var list' := list[1..];
    forall i {:trigger Link(list', i)} | 0 < i <= |list'|
      ensures next[list'[i - 1]] == Link(list', i)
    {
      assert Link(list', i) == Link(list, i + 1);
    }
  }

  function Without(list: seq<Op>, k: nat): seq<Op>
    requires k < |list|
  {
    list[..k] + list[k + 1..]
  }

  lemma ChainCut(head: Ptr, next: map<Op, Ptr>, list: seq<Op>, k: nat)
    requires Chain(head, next, list) && 0 < k < |list|
    ensures Chain(head, next[list[k - 1] := Link(list, k + 1)], Without(list, k))
    ensures forall x :: x in Without(list, k) <==> x in list && x != list[k]
  {
    var list' := Without(list, k);
    var next' := next[list[k - 1] := Link(list, k + 1)];
    forall i {:trigger Link(list', i)} | 0 < i <= |list'|
      ensures next'[list'[i - 1]] == Link(list', i)
    {
      assert Link(list', i) == if i < k then Link(list, i) else Link(list, i + 1);
      assert list'[i - 1] == if i <= k then list[i - 1] else list[i];
    }
    assert list == list[..k] + [list[k]] + list[k + 1..];
  }

  // ---------------------------------------------------------------------
  // Every step keeps the invariant
  // ---------------------------------------------------------------------

  lemma InvCallAppend(s: State, a: Action)
    requires Inv(s) && Enabled(s, a) && a.CallAppend?
    ensures Inv(Step(s, a))
  {
    var s' := Step(s, a);
    SameListPcs(s, s', a.th);
    forall x <- s'.status
      ensures StatusInv(s', x)
    {
      if x != a.op {
        assert StatusInv(s, x);
      }
    }
  }

  lemma InvStartPoller(s: State, a: Action)
    requires Inv(s) && Enabled(s, a) && a.StartPoller?
    ensures Inv(Step(s, a))
  {
    var s' := Step(s, a);
    forall u <- s'.threads
      ensures PcInv(s', u, s'.threads[u])
    {
      assert PcInv(s, u, s.threads[u]);
    }
  }

  lemma InvAppendRead(s: State, th: Thread, done: bool)
    requires Inv(s) && Enabled(s, Run(th, done)) && s.threads[th].AppendRead?
    ensures Inv(RunThread(s, th, done))
  {
  }

  lemma InvAppendCas(s: State, th: Thread, done: bool)
    requires Inv(s) && Enabled(s, Run(th, done)) && s.threads[th].AppendCas?
    ensures Inv(RunThread(s, th, done))
  {
    var op := s.threads[th].op;
    assert PcInv(s, th, s.threads[th]) && StatusInv(s, op);
    if s.head == s.next[op] {
      ChainPush(s.head, s.next, s.list, op);
      InvPublish(s, th, op);
    }
  }

  lemma InvPublish(s: State, th: Thread, op: Op)
    requires Inv(s) && th in s.threads && s.threads[th] == AppendCas(op)
    requires op in s.next && s.next[op] == s.head
    ensures Inv(Publish(s, th, op))
  {
    assert PcInv(s, th, s.threads[th]) && StatusInv(s, op);
    ChainPush(s.head, s.next, s.list, op);
    PublishPcs(s, th, op);
    PublishStatuses(s, th, op);
  }

  /** A poller keeps its place when an operation is added in front. */
  lemma PrependKeepsPlace(list: seq<Op>, op: Op, pc: Pc)
    requires PollInv(list, pc)
    ensures PollInv([op] + list, pc)
  {
  }

  lemma PublishPcs(s: State, th: Thread, op: Op)
    requires PcsInv(s) && PollerInv(s) && th in s.threads && s.threads[th] == AppendCas(op)
    requires s.head == Link(s.list, 0)
    ensures PcsInv(Publish(s, th, op))
  {
    var s' := Publish(s, th, op);
    assert PcInv(s, th, s.threads[th]);
    forall u <- s'.threads
      ensures PcInv(s', u, s'.threads[u])
    {
      if u != th {
        assert PcInv(s, u, s.threads[u]);
        if Polls(s.threads[u]) {
          PrependKeepsPlace(s.list, op, s.threads[u]);
        }
      }
    }
  }

  lemma PublishStatuses(s: State, th: Thread, op: Op)
    requires StatusesInv(s) && th in s.threads && s.threads[th] == AppendCas(op)
    requires op in s.status && s.status[op] == Mine(th)
    ensures StatusesInv(Publish(s, th, op))
  {
    var s' := Publish(s, th, op);
    forall x <- s'.status
      ensures StatusInv(s', x)
    {
      if x != op {
        assert StatusInv(s, x);
      }
    }
  }

  lemma InvSpawnPoller(s: State, th: Thread, done: bool)
    requires Inv(s) && Enabled(s, Run(th, done)) && s.threads[th].SpawnPoller?
    ensures Inv(RunThread(s, th, done))
  {
  }

  lemma InvPollHead(s: State, th: Thread, done: bool)
    requires Inv(s) && Enabled(s, Run(th, done)) && s.threads[th].PollHead?
    ensures Inv(RunThread(s, th, done))
  {
  }

  lemma InvPollNext(s: State, th: Thread, done: bool)
    requires Inv(s) && Enabled(s, Run(th, done)) && s.threads[th].PollNext?
    ensures Inv(RunThread(s, th, done))
  {
  }

  /** A poller that only moves on leaves everything else as it is. */
  lemma InvPollMoves(s: State, th: Thread, pc: Pc)
    requires Inv(s) && th in s.threads && Polls(s.threads[th]) && !s.threads[th].Release?
    requires Polls(pc) && !pc.Release? && PollInv(s.list, pc)
    ensures Inv(Goto(s, th, pc))
  {
    var s' := Goto(s, th, pc);
    assert PcInv(s, th, s.threads[th]);
    SameListPcs(s, s', th);
    forall x <- s'.status
      ensures StatusInv(s', x)
    {
      assert StatusInv(s, x);
    }
  }

  lemma PollTestMoves(s: State, th: Thread, done: bool)
    requires Enabled(s, Run(th, done)) && s.threads[th].PollTest? && PollInv(s.list, s.threads[th])
    ensures var s' := RunThread(s, th, done);
            && th in s'.threads && s' == Goto(s, th, s'.threads[th])
            && Polls(s'.threads[th]) && !s'.threads[th].Release? && PollInv(s.list, s'.threads[th])
  {
  }

  lemma InvPollTest(s: State, th: Thread, done: bool)
    requires Inv(s) && Enabled(s, Run(th, done)) && s.threads[th].PollTest?
    ensures Inv(RunThread(s, th, done))
  {
    assert PcInv(s, th, s.threads[th]);
    PollTestMoves(s, th, done);
    InvPollMoves(s, th, RunThread(s, th, done).threads[th]);
  }

  lemma InvPollCas(s: State, th: Thread, done: bool)
    requires Inv(s) && Enabled(s, Run(th, done)) && s.threads[th].PollCas?
    ensures Inv(RunThread(s, th, done))
  {
    var PollCas(op, next, rest) := s.threads[th];
    assert PcInv(s, th, s.threads[th]);
    if s.head == Some(op) {
      InvTakeHead(s, th, op, next, rest);
    }
  }

  lemma InvTakeHead(s: State, th: Thread, op: Op, next: Ptr, rest: nat)
    requires Inv(s) && th in s.threads && s.threads[th] == PollCas(op, next, rest)
    requires s.head == Some(op)
    ensures Inv(TakeHead(s, th, op, next, rest))
  {
    assert PcInv(s, th, s.threads[th]);
    assert rest == |s.list|;
    ChainPop(s.head, s.next, s.list);
    var s' := TakeHead(s, th, op, next, rest);
    PollerAlone(s, s', th);
    TakenStatuses(s, s', th, op);
  }

  /** While one thread polls, nobody else depends on what the list looks like. */
  lemma PollerAlone(s: State, s': State, th: Thread)
    requires PcsInv(s) && s.poller == Running(th)
    requires s'.threads.Keys == s.threads.Keys && th in s.threads
    requires forall u <- s.threads :: u != th ==> s'.threads[u] == s.threads[u]
    requires s'.poller == s.poller || s'.poller == Nobody
    requires forall x <- s.status :: x in s'.status && (s.status[x] != Listed ==> s'.status[x] == s.status[x])
    requires PcInv(s', th, s'.threads[th])
    ensures PcsInv(s')
  {
    forall u <- s'.threads
      ensures PcInv(s', u, s'.threads[u])
    {
      if u != th {
        assert PcInv(s, u, s.threads[u]);
      }
    }
  }

  /** Unlinking moves one operation from the list to the poller. */
  lemma TakenStatuses(s: State, s': State, th: Thread, op: Op)
    requires StatusesInv(s) && th in s.threads && op in s.list
    requires !s.threads[th].AppendRead? && !s.threads[th].AppendCas? && !s.threads[th].Release?
    requires s'.threads.Keys == s.threads.Keys && s'.threads[th].Release? && s'.threads[th].op == op
    requires forall u <- s.threads :: u != th ==> s'.threads[u] == s.threads[u]
    requires s'.status == s.status[op := Taken(th)] && s'.released == s.released
    requires s'.next.Keys == s.next.Keys && op in s.next
    requires forall x :: x in s'.list <==> x in s.list && x != op
    ensures StatusesInv(s')
  {
    forall x <- s'.status
      ensures StatusInv(s', x)
    {
      if x != op {
        assert StatusInv(s, x);
      }
    }
    assert s.status[op] == Listed;
    forall i | 0 <= i < |s'.list|
      ensures s'.list[i] in s'.status && s'.status[s'.list[i]] == Listed
    {
      assert s'.list[i] in s.list && s'.list[i] != op;
    }
  }

  lemma InvPollFix(s: State, th: Thread, done: bool)
    requires Inv(s) && Enabled(s, Run(th, done)) && s.threads[th].PollFix?
    ensures Inv(RunThread(s, th, done))
  {
    var PollFix(front, op, next, rest) := s.threads[th];
    assert PcInv(s, th, s.threads[th]);
    if s.next[front] == Some(op) {
      FrontIsBefore(s, front, op, rest);
      InvUnlink(s, th, front, op, next, rest);
    }
  }

  /** The operation whose link leads to `op` is the one before it. */
  lemma FrontIsBefore(s: State, front: Op, op: Op, rest: nat)
    requires Chain(s.head, s.next, s.list) && At(s.list, None, op, rest)
    requires front in s.list && s.next[front] == Some(op)
    ensures At(s.list, Some(front), op, rest)
  {
    var j :| 0 <= j < |s.list| && s.list[j] == front;
    assert s.next[front] == Link(s.list, j + 1);
  }

  /** After unlinking, the poller goes on behind the operation before. */
  lemma CutKeepsPlace(list: seq<Op>, prev: Op, op: Op, next: Ptr, rest: nat)
    requires NoDup(list) && At(list, Some(prev), op, rest) && After(list, next, rest)
    ensures From(Without(list, |list| - rest), Some(prev), next, rest - 1)
  {
  }

  lemma UnlinkChain(s: State, th: Thread, prev: Op, op: Op, next: Ptr, rest: nat)
    requires Chain(s.head, s.next, s.list)
    requires At(s.list, Some(prev), op, rest) && After(s.list, next, rest)
    ensures var s' := Unlink(s, th, prev, op, next, rest);
            && Chain(s'.head, s'.next, s'.list) && s'.list != []
            && (forall x :: x in s'.list <==> x in s.list && x != op)
            && s'.next.Keys == s.next.Keys && op in s.next && op in s.list
  {
    ChainCut(s.head, s.next, s.list, |s.list| - rest);
  }

  lemma UnlinkStatuses(s: State, th: Thread, prev: Op, op: Op, next: Ptr, rest: nat)
    requires Chain(s.head, s.next, s.list) && StatusesInv(s) && th in s.threads
    requires s.threads[th].PollFix? || s.threads[th].PollUnlink?
    requires At(s.list, Some(prev), op, rest) && After(s.list, next, rest)
    ensures StatusesInv(Unlink(s, th, prev, op, next, rest))
    ensures op in s.status && s.status[op] == Listed
  {
    UnlinkChain(s, th, prev, op, next, rest);
    TakenStatuses(s, Unlink(s, th, prev, op, next, rest), th, op);
    assert s.list[|s.list| - rest] == op;
  }

  lemma InvUnlink(s: State, th: Thread, prev: Op, op: Op, next: Ptr, rest: nat)
    requires Inv(s) && th in s.threads && s.poller == Running(th)
    requires s.threads[th].PollFix? || s.threads[th].PollUnlink?
    requires At(s.list, Some(prev), op, rest) && After(s.list, next, rest)
    ensures Inv(Unlink(s, th, prev, op, next, rest))
  {
    UnlinkChain(s, th, prev, op, next, rest);
    UnlinkStatuses(s, th, prev, op, next, rest);
    UnlinkPcs(s, th, prev, op, next, rest);
  }

  lemma UnlinkOwnPc(s: State, th: Thread, prev: Op, op: Op, next: Ptr, rest: nat)
    requires th in s.threads && s.poller == Running(th)
    requires NoDup(s.list) && At(s.list, Some(prev), op, rest) && After(s.list, next, rest)
    requires op in s.status
    ensures var s' := Unlink(s, th, prev, op, next, rest); PcInv(s', th, s'.threads[th])
  {
    CutKeepsPlace(s.list, prev, op, next, rest);
  }

  lemma UnlinkPcs(s: State, th: Thread, prev: Op, op: Op, next: Ptr, rest: nat)
    requires PcsInv(s) && th in s.threads && s.poller == Running(th)
    requires NoDup(s.list) && At(s.list, Some(prev), op, rest) && After(s.list, next, rest)
    requires op in s.status && s.status[op] == Listed
    ensures PcsInv(Unlink(s, th, prev, op, next, rest))
  {
    UnlinkOwnPc(s, th, prev, op, next, rest);
    PollerAlone(s, Unlink(s, th, prev, op, next, rest), th);
  }

  lemma InvPollUnlink(s: State, th: Thread, done: bool)
    requires Inv(s) && Enabled(s, Run(th, done)) && s.threads[th].PollUnlink?
    ensures Inv(RunThread(s, th, done))
  {
    var PollUnlink(prev, op, next, rest) := s.threads[th];
    assert PcInv(s, th, s.threads[th]);
    assert s.next[prev] == Link(s.list, |s.list| - rest);
    InvUnlink(s, th, prev, op, next, rest);
  }

  lemma InvRelease(s: State, th: Thread, done: bool)
    requires Inv(s) && Enabled(s, Run(th, done)) && s.threads[th].Release?
    ensures Inv(RunThread(s, th, done))
  {
    var Release(prev, op, next, more, rest) := s.threads[th];
    var s' := RunThread(s, th, done);
    assert PcInv(s, th, s.threads[th]) && StatusInv(s, op);
    SameListPcs(s, s', th);
    ReleaseStatuses(s, s', th, op);
  }

  /** A step that leaves the list and the poller alone matters to nobody else. */
  lemma SameListPcs(s: State, s': State, th: Thread)
    requires PcsInv(s) && s'.list == s.list && s'.poller == s.poller
    requires s'.threads.Keys == s.threads.Keys && th in s.threads
    requires forall u <- s.threads :: u != th ==> s'.threads[u] == s.threads[u]
    requires forall x <- s.status ::
               x in s'.status && (s.status[x] == Taken(th) || s.status[x] == Mine(th) || s'.status[x] == s.status[x])
    requires PcInv(s', th, s'.threads[th])
    ensures PcsInv(s')
  {
    forall u <- s'.threads
      ensures PcInv(s', u, s'.threads[u])
    {
      if u != th {
        assert PcInv(s, u, s.threads[u]);
      }
    }
  }

  lemma ReleaseStatuses(s: State, s': State, th: Thread, op: Op)
    requires StatusesInv(s) && th in s.threads && s.threads[th].Release? && s.threads[th].op == op
    requires op in s.status && s.status[op] == Taken(th)
    requires s'.threads.Keys == s.threads.Keys
    requires forall u <- s.threads :: u != th ==> s'.threads[u] == s.threads[u]
    requires s'.list == s.list && s'.released == s.released + [op]
    requires s'.status == s.status[op := Released] && s'.next == s.next - {op}
    ensures StatusesInv(s')
  {
    forall x <- s'.status
      ensures StatusInv(s', x)
    {
      if x != op {
        assert StatusInv(s, x);
      }
    }
  }

  lemma InvStep(s: State, a: Action)
    requires Inv(s) && Enabled(s, a)
    ensures Inv(Step(s, a))
  {
    if a.CallAppend? {
      InvCallAppend(s, a);
    } else if a.StartPoller? {
      InvStartPoller(s, a);
    } else {
      var th, done := a.th, a.done;
      match s.threads[th] {
        case AppendRead(_) => InvAppendRead(s, th, done);
        case AppendCas(_) => InvAppendCas(s, th, done);
        case SpawnPoller => InvSpawnPoller(s, th, done);
        case PollHead => InvPollHead(s, th, done);
        case PollNext(_, _, _) => InvPollNext(s, th, done);
        case PollTest(_, _, _, _) => InvPollTest(s, th, done);
        case PollCas(_, _, _) => InvPollCas(s, th, done);
        case PollFix(_, _, _, _) => InvPollFix(s, th, done);
        case PollUnlink(_, _, _, _) => InvPollUnlink(s, th, done);
        case Release(_, _, _, _, _) => InvRelease(s, th, done);
      }
    }
  }

  // ---------------------------------------------------------------------
  // Results about whole runs
  // ---------------------------------------------------------------------

  /** The `i`-th action leads from the `i`-th state to the next. */
  predicate StepAt(states: seq<State>, actions: seq<Action>, i: nat)
    requires i < |actions| && |states| == |actions| + 1
  {
    Enabled(states[i], actions[i]) && states[i + 1] == Step(states[i], actions[i])
  }

  ghost predicate IsRun(states: seq<State>, actions: seq<Action>) {
    && |states| == |actions| + 1
    && Init(states[0])
    && forall i :: 0 <= i < |actions| ==> StepAt(states, actions, i)
  }

  lemma RunsKeepInv(states: seq<State>, actions: seq<Action>, i: nat)
    requires IsRun(states, actions) && i < |states|
    ensures Inv(states[i])
  {
    for n := 0 to i
      invariant Inv(states[n])
    {
      assert StepAt(states, actions, n);
      InvStep(states[n], actions[n]);
    }
  }

  /**
    Every operation handed to append is with its appender, reachable from the head,
    unlinked and about to be released, or released, and in no two of these; it is
    released at most once.
   */
  lemma OperationsAreConserved(states: seq<State>, actions: seq<Action>, i: nat, op: Op)
    requires IsRun(states, actions) && i < |states| && op in states[i].status
    ensures var s := states[i];
            && Chain(s.head, s.next, s.list) && NoDup(s.released)
            && (op in s.list <==> s.status[op] == Listed)
            && (op in s.released <==> s.status[op] == Released)
            && ((exists th <- s.threads :: s.threads[th].Release? && s.threads[th].op == op)
                <==> s.status[op].Taken?)
            && ((exists th <- s.threads :: (s.threads[th].AppendRead? || s.threads[th].AppendCas?) && s.threads[th].op == op)
                <==> s.status[op].Mine?)
  {
    RunsKeepInv(states, actions, i);
    var s := states[i];
    assert StatusInv(s, op);
    assert forall th <- s.threads :: PcInv(s, th, s.threads[th]);
  }

  /** How many polling tasks will still touch the list because of this thread. */
  function Pollers(s: State, th: Thread): nat
    requires th in s.threads
  {
    if Polls(s.threads[th]) || s.threads[th].SpawnPoller? then 1 else 0
  }

  /**
    A list with something on it has exactly one poller that will still touch it:
    about to be spawned by one appender, spawned and not started, or running in one
    thread.  An empty list has none.
   */
  lemma ExactlyOnePollerWhileNonEmpty(states: seq<State>, actions: seq<Action>, i: nat)
    requires IsRun(states, actions) && i < |states|
    ensures var s := states[i];
            if s.head == None then
              && s.spawned == 0 && (forall th <- s.threads :: Pollers(s, th) == 0)
            else if s.spawned > 0 then
              && s.spawned == 1 && (forall th <- s.threads :: Pollers(s, th) == 0)
            else
              exists th <- s.threads ::
                && Pollers(s, th) == 1
                && (forall u <- s.threads :: u != th ==> Pollers(s, u) == 0)
  {
    RunsKeepInv(states, actions, i);
    var s := states[i];
    assert forall th <- s.threads :: PcInv(s, th, s.threads[th]);
    if s.poller.Appender? || s.poller.Running? {
      assert Pollers(s, s.poller.th) == 1;
    }
  }

  /** The assertions on an empty list (line 20) and on the link before (line 62) never fail. */
  lemma OnlyTheFrontAssertionCanFail(states: seq<State>, actions: seq<Action>, i: nat)
    requires IsRun(states, actions) && i < |states|
    ensures states[i].aborted.Some? ==> states[i].aborted == Some(45)
  {
    RunsKeepInv(states, actions, i);
  }

  /** What the assertion on line 45 tests: the front seen by the failed swap is directly before the operation. */
  lemma FrontAssertionFailsIffNotAdjacent(states: seq<State>, actions: seq<Action>, i: nat, th: Thread)
    requires IsRun(states, actions) && i < |actions| && actions[i].Run? && actions[i].th == th
    requires th in states[i].threads && states[i].threads[th].PollFix?
    ensures var s, pc := states[i], states[i].threads[th];
            states[i + 1].aborted == Some(45) <==> !At(s.list, Some(pc.front), pc.op, pc.rest)
  {
    RunsKeepInv(states, actions, i);
    assert StepAt(states, actions, i);
    FixStep(states[i], th, actions[i].done);
  }

  lemma FixStep(s: State, th: Thread, done: bool)
    requires Inv(s) && Enabled(s, Run(th, done)) && s.threads[th].PollFix?
    ensures var pc := s.threads[th];
            RunThread(s, th, done).aborted == Some(45) <==> !At(s.list, Some(pc.front), pc.op, pc.rest)
  {
    var PollFix(front, op, next, rest) := s.threads[th];
    assert PcInv(s, th, s.threads[th]);
    assert At(s.list, Some(front), op, rest) ==> s.next[front] == Link(s.list, |s.list| - rest);
    if s.next[front] == Some(op) {
      FrontIsBefore(s, front, op, rest);
    }
  }

  /** A run that ends in `s` can be prolonged by any action enabled there. */
  lemma Prolong(states: seq<State>, actions: seq<Action>, s: State, a: Action)
      returns (states': seq<State>, actions': seq<Action>)
    requires IsRun(states, actions) && states[|actions|] == s && Enabled(s, a)
    ensures IsRun(states', actions') && states'[|actions'|] == Step(s, a)
  {
    states', actions' := states + [Step(s, a)], actions + [a];
    forall i | 0 <= i < |actions'|
      ensures StepAt(states', actions', i)
    {
      assert i < |actions| ==> StepAt(states, actions, i);
    }
  }

  /** One uninterrupted call of append by thread 0 while thread 1 polls. */
  lemma AppendUninterrupted(states: seq<State>, actions: seq<Action>, s: State, op: Op)
      returns (states': seq<State>, actions': seq<Action>, s': State)
    requires IsRun(states, actions) && states[|actions|] == s && s.aborted == None
    requires 0 in s.threads && s.threads[0] == Idle && 1 in s.threads
    requires op !in s.status && op !in s.next && s.head.Some?
    ensures IsRun(states', actions') && states'[|actions'|] == s'
    ensures s' == s.(head := Some(op), next := s.next[op := s.head], list := [op] + s.list,
                     status := s.status[op := Listed])
  {
    states', actions' := Prolong(states, actions, s, CallAppend(0, op));
    var s1 := Step(s, CallAppend(0, op));
    states', actions' := Prolong(states', actions', s1, Run(0, false));
    var s2 := Step(s1, Run(0, false));
    states', actions' := Prolong(states', actions', s2, Run(0, false));
    s' := Step(s2, Run(0, false));
    assert s'.threads == s.threads && s'.next == s.next[op := s.head];
    assert s'.status == s.status[op := Listed];
  }

  /** An operation is appended to the empty list and the poller is spawned. */
  lemma FirstAppend() returns (states: seq<State>, actions: seq<Action>, s: State)
    ensures IsRun(states, actions) && states[|actions|] == s
    ensures s == State(Some(10), map[10 := None], map[0 := Idle, 1 := Idle], 1, [10], map[10 := Listed],
                       Spawned, [], None)
  {
    var s0 := State(None, map[], map[0 := Idle, 1 := Idle], 0, [], map[], Nobody, [], None);
    states, actions := [s0], [];
    states, actions := Prolong(states, actions, s0, CallAppend(0, 10));
    var s1 := Step(s0, CallAppend(0, 10));
    states, actions := Prolong(states, actions, s1, Run(0, false));
    var s2 := Step(s1, Run(0, false));
    states, actions := Prolong(states, actions, s2, Run(0, false));
    var s3 := Step(s2, Run(0, false));
    states, actions := Prolong(states, actions, s3, Run(0, false));
    s := Step(s3, Run(0, false));
    assert s.threads == map[0 := Idle, 1 := Idle];
  }

  /** The poller starts and finds the operation complete. */
  lemma PollerAtItsSwap() returns (states: seq<State>, actions: seq<Action>, s: State)
    ensures IsRun(states, actions) && states[|actions|] == s
    ensures s.aborted == None && s.threads == map[0 := Idle, 1 := PollCas(10, None, 1)]
    ensures s.head == Some(10) && s.next == map[10 := None] && s.status == map[10 := Listed]
  {
    states, actions, s := FirstAppend();
    states, actions := Prolong(states, actions, s, StartPoller(1));
    var s1 := Step(s, StartPoller(1));
    states, actions := Prolong(states, actions, s1, Run(1, false));
    var s2 := Step(s1, Run(1, false));
    states, actions := Prolong(states, actions, s2, Run(1, false));
    var s3 := Step(s2, Run(1, false));
    states, actions := Prolong(states, actions, s3, Run(1, true));
    s := Step(s3, Run(1, true));
  }

  /** Two appends between a poller's test and its compare-and-swap do make line 45 fail. */
  lemma FrontAssertionCanFail() returns (states: seq<State>, actions: seq<Action>)
    ensures IsRun(states, actions) && states[|actions|].aborted == Some(45)
  {
    var s;
    states, actions, s := PollerAtItsSwap();
    states, actions, s := AppendUninterrupted(states, actions, s, 11);
    states, actions, s := AppendUninterrupted(states, actions, s, 12);
    states, actions := Prolong(states, actions, s, Run(1, false));
    var s' := Step(s, Run(1, false));
    states, actions := Prolong(states, actions, s', Run(1, false));
  }

  /** No thread ever dereferences an operation that has been freed. */
  lemma ThreadsNeverStuck(states: seq<State>, actions: seq<Action>, i: nat, th: Thread, done: bool)
    requires IsRun(states, actions) && i < |states| && states[i].aborted == None
    requires th in states[i].threads && states[i].threads[th] != Idle
    ensures Enabled(states[i], Run(th, done))
  {
    RunsKeepInv(states, actions, i);
    var s := states[i];
    assert PcInv(s, th, s.threads[th]);
    match s.threads[th] {
      case AppendRead(op) => assert StatusInv(s, op);
      case AppendCas(op) => assert StatusInv(s, op);
      case Release(_, op, _, _, _) => assert StatusInv(s, op);
      case _ =>
    }
  }
}
