/**
  What a caller of the deque gets: the operations that take effect are those that
  were called, with the arguments of the calls, and every call comes to an end.
 */
module DequeCalls {
  import opened Common
  import opened Deque

  /** The owner's operations of a history. */
  function OwnerEvents(log: seq<Event>): seq<Event> {
    if log == [] then []
    else
      OwnerEvents(log[..|log| - 1]) +
      if log[|log| - 1].Steal? then [] else [log[|log| - 1]]
  }

  lemma OwnerEventsPush(log: seq<Event>, e: Event)
    ensures OwnerEvents(log + [e]) == OwnerEvents(log) + if e.Steal? then [] else [e]
  {
    assert (log + [e])[..|log|] == log;
  }

  // ---------------------------------------------------------------------
  // One call of the owner
  // ---------------------------------------------------------------------

  /** The owner is inside the call made at step `j`, at all states after it and before `k`. */
  predicate InsideCall(states: seq<State>, actions: seq<Action>, j: nat, k: nat)
    requires |states| == |actions| + 1
  {
    && j < k < |states|
    && (actions[j].CallPush? || actions[j].CallPop?)
    && (forall m :: j < m < k ==> states[m].owner != Idle)
  }

  /** How far a call of push with `x` has got, having begun with the owner's events `before` and results `popped`. */
  predicate Pushing(s: State, x: Task, before: seq<Event>, popped: seq<Option<Task>>) {
    && s.popped == popped
    && match s.owner
       case PushCheck(y) => y == x && OwnerEvents(s.log) == before
       case PushWrite(y) => y == x && OwnerEvents(s.log) == before
       case PushBump(y) => y == x && OwnerEvents(s.log) == before
       case _ => false
  }

  /** How far a call of pop has got. */
  predicate Popping(s: State, before: seq<Event>, popped: seq<Option<Task>>)
    requires Shaped(s)
  {
    && s.popped == popped
    && match s.owner
       case PopDec => OwnerEvents(s.log) == before
       case PopHead => OwnerEvents(s.log) == before
       case PopData(_) => OwnerEvents(s.log) == before
       case PopCas(_, _) => OwnerEvents(s.log) == before
       case PopTake => OwnerEvents(s.log) == before + [Pop(Some(s.data[Slot(s.tail)]))]
       case ResetRead(r) => OwnerEvents(s.log) == before + [Pop(r)]
       case ResetWrite(_, r) => OwnerEvents(s.log) == before + [Pop(r)]
       case _ => false
  }

  /** A thief changes nothing that the owner's call depends on. */
  lemma ThiefKeepsCall(s: State, id: nat, again: bool)
    requires Shaped(s) && id in s.thieves && s.thieves[id] != Out
    ensures var t := ThiefNext(s, id, again);
            && t.owner == s.owner && t.popped == s.popped && t.data == s.data && t.tail == s.tail
            && OwnerEvents(t.log) == OwnerEvents(s.log)
  {
    match s.thieves[id] {
      case Cas(h, t) => OwnerEventsPush(s.log, Steal(t));
      case _ =>
    }
  }

  lemma PushingStep(s: State, a: Action, x: Task, before: seq<Event>, popped: seq<Option<Task>>)
    requires Enabled(s, a) && Pushing(s, x, before, popped)
    ensures var t := Step(s, a);
            || Pushing(t, x, before, popped)
            || (&& a.OwnerStep? && t.owner == Idle && t.popped == popped
                && (|| (s.owner.PushBump? && OwnerEvents(t.log) == before + [Push(x)])
                    || (s.owner.PushCheck? && s.tail - s.head == CAPACITY && OwnerEvents(t.log) == before)))
  {
    match a {
      case ThiefStep(id, again) => ThiefKeepsCall(s, id, again);
      case OwnerStep => OwnerEventsPush(s.log, Push(x));
      case _ =>
    }
  }

  lemma PoppingOwnerStep(s: State, before: seq<Event>, popped: seq<Option<Task>>)
    requires Shaped(s) && s.owner != Idle && Popping(s, before, popped)
    ensures var t := OwnerNext(s);
            && Shaped(t)
            && (|| Popping(t, before, popped)
                || (t.owner == Idle && exists r :: t.popped == popped + [r] && OwnerEvents(t.log) == before + [Pop(r)]))
  {
    match s.owner {
      case PopHead =>
        OwnerEventsPush(s.log, Pop(None));
        OwnerEventsPush(s.log, Pop(Some(s.data[Slot(s.tail)])));
      case PopCas(_, t) =>
        OwnerEventsPush(s.log, Pop(None));
        OwnerEventsPush(s.log, Pop(Some(t)));
      case _ =>
    }
  }

  lemma PoppingStep(s: State, a: Action, before: seq<Event>, popped: seq<Option<Task>>)
    requires Enabled(s, a) && Popping(s, before, popped)
    ensures var t := Step(s, a);
            && Shaped(t)
            && (|| Popping(t, before, popped)
                || (t.owner == Idle && exists r :: t.popped == popped + [r] && OwnerEvents(t.log) == before + [Pop(r)]))
  {
    match a {
      case ThiefStep(id, again) => ThiefKeepsCall(s, id, again);
      case OwnerStep => PoppingOwnerStep(s, before, popped);
      case _ =>
    }
  }

  lemma PushGoesOn(states: seq<State>, actions: seq<Action>, j: nat, k: nat, x: Task)
    requires IsRun(states, actions) && InsideCall(states, actions, j, k) && actions[j] == CallPush(x)
    requires states[k].owner != Idle
    ensures Pushing(states[k], x, OwnerEvents(states[j].log), states[j].popped)
  {
    assert StepAt(states, actions, j);
    for m := j + 1 to k
      invariant Pushing(states[m], x, OwnerEvents(states[j].log), states[j].popped)
    {
      assert StepAt(states, actions, m);
      PushingStep(states[m], actions[m], x, OwnerEvents(states[j].log), states[j].popped);
    }
  }

  /**
    A call of push with `x` that has returned has logged exactly one operation of the
    owner, Push(x), or none; it has logged none exactly if the ring was full when the
    owner looked, which is then the last step of the call.  It has returned no task.
   */
  lemma PushCallPushesItsArgument(states: seq<State>, actions: seq<Action>, j: nat, k: nat, x: Task)
    requires IsRun(states, actions) && InsideCall(states, actions, j, k) && actions[j] == CallPush(x)
    requires states[k].owner == Idle
    ensures states[k].popped == states[j].popped
    ensures var before, after, s := OwnerEvents(states[j].log), OwnerEvents(states[k].log), states[k - 1];
            || (after == before + [Push(x)] && !s.owner.PushCheck?)
            || (after == before && s.owner.PushCheck? && s.tail - s.head == CAPACITY)
  {
    assert StepAt(states, actions, j);
    assert StepAt(states, actions, k - 1);
    if k == j + 1 {
      assert false;
    }
    PushGoesOn(states, actions, j, k - 1, x);
    PushingStep(states[k - 1], actions[k - 1], x, OwnerEvents(states[j].log), states[j].popped);
  }

  lemma PopGoesOn(states: seq<State>, actions: seq<Action>, j: nat, k: nat)
    requires IsRun(states, actions) && InsideCall(states, actions, j, k) && actions[j] == CallPop
    requires states[k].owner != Idle
    ensures Shaped(states[k]) && Popping(states[k], OwnerEvents(states[j].log), states[j].popped)
  {
    assert StepAt(states, actions, j);
    for m := j + 1 to k
      invariant Shaped(states[m]) && Popping(states[m], OwnerEvents(states[j].log), states[j].popped)
    {
      assert StepAt(states, actions, m);
      PoppingStep(states[m], actions[m], OwnerEvents(states[j].log), states[j].popped);
    }
  }

  /** A call of pop that has returned has logged exactly one operation of the owner, a pop of what it returned. */
  lemma PopCallPopsOnce(states: seq<State>, actions: seq<Action>, j: nat, k: nat)
    requires IsRun(states, actions) && InsideCall(states, actions, j, k) && actions[j] == CallPop
    requires states[k].owner == Idle
    ensures |states[k].popped| == |states[j].popped| + 1 && states[j].popped <= states[k].popped
    ensures OwnerEvents(states[k].log) == OwnerEvents(states[j].log) + [Pop(states[k].popped[|states[j].popped|])]
  {
    assert StepAt(states, actions, j);
    assert StepAt(states, actions, k - 1);
    if k == j + 1 {
      assert false;
    }
    PopGoesOn(states, actions, j, k - 1);
    PoppingStep(states[k - 1], actions[k - 1], OwnerEvents(states[j].log), states[j].popped);
  }

  // ---------------------------------------------------------------------
  // Steals
  // ---------------------------------------------------------------------

  /** Tasks are stolen one at a time, by a thief's own step, which ends that thief's call with the task it read. */
  lemma StealEndsTheCall(states: seq<State>, actions: seq<Action>, i: nat)
    requires IsRun(states, actions) && i < |actions| && states[i + 1].stolen != states[i].stolen
    ensures actions[i].ThiefStep?
    ensures var id := actions[i].id;
            && id in states[i].thieves && states[i].thieves[id].Cas?
            && states[i + 1].stolen == states[i].stolen + [states[i].thieves[id].t]
            && states[i + 1].thieves == states[i].thieves[id := Out]
            && states[i + 1].log == states[i].log + [Steal(states[i].thieves[id].t)]
  {
    assert StepAt(states, actions, i);
  }

  // ---------------------------------------------------------------------
  // Conservation in terms of the calls
  // ---------------------------------------------------------------------

  /** The owner's call among the first `n` actions that was made last. */
  function LastCall(actions: seq<Action>, n: nat): Option<Action>
    requires n <= |actions|
  {
    if n == 0 then None
    else if actions[n - 1].CallPush? || actions[n - 1].CallPop? then Some(actions[n - 1])
    else LastCall(actions, n - 1)
  }

  /** The arguments of the calls of push that have added to the tail so far. */
  function Accepted(states: seq<State>, actions: seq<Action>, n: nat): multiset<Task>
    requires n <= |actions| && n < |states|
  {
    if n == 0 then multiset{}
    else
      Accepted(states, actions, n - 1) + Taken(states[n - 1], states[n], LastCall(actions, n - 1))
  }

  /** The owner works on the call that was made last. */
  predicate WorksOn(s: State, call: Option<Action>) {
    match s.owner
    case Idle => true
    case PushCheck(y) => call == Some(CallPush(y))
    case PushWrite(y) => call == Some(CallPush(y))
    case PushBump(y) => call == Some(CallPush(y))
    case _ => call == Some(CallPop)
  }

  lemma WorksOnStep(s: State, a: Action, call: Option<Action>)
    requires Enabled(s, a) && WorksOn(s, call)
    ensures WorksOn(Step(s, a), if a.CallPush? || a.CallPop? then Some(a) else call)
  {
  }

  lemma PushesExtend(log: seq<Event>, e: Event)
    ensures Pushes(log + [e]) == Pushes(log) + PushesOf(e)
  {
    assert (log + [e])[..|log|] == log;
  }

  /** The argument of a call of push that a step from `s` to `t` accepts. */
  function Taken(s: State, t: State, call: Option<Action>): multiset<Task> {
    if call.Some? && call.value.CallPush? && t.tail == s.tail + 1 then multiset{call.value.x} else multiset{}
  }

  lemma PushesOwnerStep(s: State, call: Option<Action>)
    requires Shaped(s) && s.owner != Idle && WorksOn(s, call)
    ensures Pushes(OwnerNext(s).log) == Pushes(s.log) + Taken(s, OwnerNext(s), call)
  {
    var t := OwnerNext(s);
    if t.log != s.log {
      assert t.log == s.log + [t.log[|s.log|]];
      PushesExtend(s.log, t.log[|s.log|]);
    }
  }

  lemma PushesThiefStep(s: State, id: nat, again: bool)
    requires Shaped(s) && id in s.thieves && s.thieves[id] != Out
    ensures var t := ThiefNext(s, id, again); Pushes(t.log) == Pushes(s.log) && t.tail == s.tail
  {
    if s.thieves[id].Cas? {
      PushesExtend(s.log, Steal(s.thieves[id].t));
    }
  }

  /** A step logs a push exactly if it adds to the tail in a call of push, and then of that call's argument. */
  lemma PushesStep(s: State, a: Action, call: Option<Action>)
    requires Enabled(s, a) && WorksOn(s, call)
    ensures Pushes(Step(s, a).log) == Pushes(s.log) + Taken(s, Step(s, a), call)
  {
    match a {
      case OwnerStep => PushesOwnerStep(s, call);
      case ThiefStep(id, again) => PushesThiefStep(s, id, again);
      case _ =>
    }
  }

  lemma {:induction false} LoggedPushesWereAccepted(states: seq<State>, actions: seq<Action>, n: nat)
    requires IsRun(states, actions) && n < |states|
    ensures WorksOn(states[n], LastCall(actions, n))
    ensures Pushes(states[n].log) == Accepted(states, actions, n)
    decreases n
  {
    if n > 0 {
      LoggedPushesWereAccepted(states, actions, n - 1);
      assert StepAt(states, actions, n - 1);
      WorksOnStep(states[n - 1], actions[n - 1], LastCall(actions, n - 1));
      PushesStep(states[n - 1], actions[n - 1], LastCall(actions, n - 1));
    }
  }

  /**
    No task is lost and none is handed out twice: the arguments of the accepted calls
    of push are what was popped, what a pop in flight has taken, what was stolen and
    what is live.
   */
  lemma PushedIsReturnedPlusLive(states: seq<State>, actions: seq<Action>, i: nat)
    requires IsRun(states, actions) && i < |states|
    ensures var s := states[i];
            && Shaped(s) && s.head <= Top(s)
            && Accepted(states, actions, i) ==
               Tasks(s.popped) + Tasks(Pending(s)) + multiset(s.stolen) + multiset(Live(s))
            && Tasks(s.popped) + multiset(s.stolen) <= Accepted(states, actions, i)
  {
    LoggedPushesWereAccepted(states, actions, i);
    LoggedIsReturnedPlusLive(states, actions, i);
  }

  // ---------------------------------------------------------------------
  // Every call ends
  // ---------------------------------------------------------------------

  /** A bound on the steps that the owner's call still takes. */
  function OwnerRank(pc: OwnerPc): nat {
    match pc
    case Idle => 0
    case PushCheck(_) => 3
    case PushWrite(_) => 2
    case PushBump(_) => 1
    case PopDec => 6
    case PopHead => 5
    case PopData(_) => 4
    case PopCas(_, _) => 3
    case ResetRead(_) => 2
    case ResetWrite(_, _) => 1
    case PopTake => 1
  }

  /** Push and pop are wait-free: each owner step brings the call nearer to its end, whatever the thieves do. */
  lemma OwnerIsWaitFree(s: State, a: Action)
    requires Enabled(s, a)
    ensures a == OwnerStep ==> OwnerRank(Step(s, a).owner) < OwnerRank(s.owner)
    ensures !a.CallPush? && !a.CallPop? && a != OwnerStep ==> Step(s, a).owner == s.owner
  {
  }

  /** A bound on the steps of a thief's call as long as `head` stays what it is. */
  function ThiefRank(s: State, pc: ThiefPc): nat {
    match pc
    case Out => 0
    case ReadHead => 4
    case ReadTail(h) => if h == s.head then 3 else 7
    case ReadData(h) => if h == s.head then 2 else 6
    case Cas(h, _) => if h == s.head then 1 else 5
  }

  /** Steal is lock-free: a thief's own step brings its call nearer to its end, by itself or by moving `head`. */
  lemma ThiefIsLockFree(s: State, id: nat, again: bool)
    requires Enabled(s, ThiefStep(id, again))
    ensures var t := Step(s, ThiefStep(id, again));
            && id in t.thieves
            && ThiefRank(t, t.thieves[id]) < ThiefRank(s, s.thieves[id])
            && (t.head != s.head ==> t.thieves[id] == Out)
  {
  }
}
