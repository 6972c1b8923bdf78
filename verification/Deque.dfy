/**
  The work-stealing deque of src/hclib-deque.c as a machine of atomic steps.

  One owner pushes and pops at the tail; any number of thieves compete for the
  head.  Every read or write of `head`, `tail` or `data` that another thread can
  observe, and every compare-and-swap, is one step.  `tail` is written by the
  owner only, so the owner's own reads of it are folded into its next step.

  The variables `log`, `popped` and `stolen` are history: they record what
  happened and never influence a step.
 */
module Deque {
  import opened Common

  type Task = nat

  const CAPACITY: nat := 1048576

  /** What the calls amount to on an abstract double-ended queue. */
  datatype Event = Push(x: Task) | Pop(r: Option<Task>) | Steal(y: Task)

  datatype OwnerPc =
    | Idle
    | PushCheck(entry: Task)   // about to compare tail - head with CAPACITY
    | PushWrite(entry: Task)   // about to store into data[tail % CAPACITY]
    | PushBump(entry: Task)    // about to increment tail
    | PopDec                   // about to decrement tail
    | PopHead                  // tail decremented, about to read head
    | PopTake                  // size > 0: about to read the slot and return it
    | PopData(h: int)          // size == 0: about to read the slot
    | PopCas(h: int, t: Task)  // about to compete for the last task
    | ResetRead(ret: Option<Task>)            // about to read head ...
    | ResetWrite(h: int, ret: Option<Task>)   // ... and to store it in tail

  datatype ThiefPc =
    | Out
    | ReadHead
    | ReadTail(h: int)
    | ReadData(h: int)
    | Cas(h: int, t: Task)

  datatype State = State(
    head: int,
    tail: int,
    data: seq<Task>,
    owner: OwnerPc,
    thieves: map<nat, ThiefPc>,
    log: seq<Event>,
    popped: seq<Option<Task>>,
    stolen: seq<Task>)

  /** `again` resolves the unset `success` after a lost compare-and-swap. */
  datatype Action =
    | CallPush(x: Task)
    | CallPop
    | OwnerStep
    | CallSteal(id: nat)
    | ThiefStep(id: nat, again: bool)

  predicate Shaped(s: State) {
    |s.data| == CAPACITY
  }

  predicate Init(s: State) {
    && Shaped(s)
    && s.head == 0 && s.tail == 0
    && s.owner == Idle
    && (forall id <- s.thieves :: s.thieves[id] == Out)
    && s.log == [] && s.popped == [] && s.stolen == []
  }

  predicate Enabled(s: State, a: Action) {
    && Shaped(s)
    && match a
       case CallPush(_) => s.owner == Idle
       case CallPop => s.owner == Idle
       case OwnerStep => s.owner != Idle
       case CallSteal(id) => id in s.thieves && s.thieves[id] == Out
       case ThiefStep(id, _) => id in s.thieves && s.thieves[id] != Out
  }

  function Slot(i: int): nat {
    i % CAPACITY
  }

  function Step(s: State, a: Action): State
    requires Enabled(s, a)
  {
    match a
    case CallPush(x) => s.(owner := PushCheck(x))
    case CallPop => s.(owner := PopDec)
    case OwnerStep => OwnerNext(s)
    case CallSteal(id) => s.(thieves := s.thieves[id := ReadHead])
    case ThiefStep(id, again) => ThiefNext(s, id, again)
  }

  function OwnerNext(s: State): State
    requires Shaped(s) && s.owner != Idle
  {
    match s.owner
    case PushCheck(x) =>
      s.(owner := if s.tail - s.head == CAPACITY then Idle else PushWrite(x))
    case PushWrite(x) =>
      s.(data := s.data[Slot(s.tail) := x], owner := PushBump(x))
    case PushBump(x) =>
      s.(tail := s.tail + 1, owner := Idle, log := s.log + [Push(x)])
    case PopDec =>
      s.(tail := s.tail - 1, owner := PopHead)
    case PopHead =>
      var size := s.tail - s.head;
      if size < 0 then
        s.(owner := ResetRead(None), log := s.log + [Pop(None)])
      else if size > 0 then
        s.(owner := PopTake, log := s.log + [Pop(Some(s.data[Slot(s.tail)]))])
      else
        s.(owner := PopData(s.head))
    case PopTake =>
      s.(owner := Idle, popped := s.popped + [Some(s.data[Slot(s.tail)])])
    case PopData(h) =>
      s.(owner := PopCas(h, s.data[Slot(s.tail)]))
    case PopCas(h, t) =>
      if s.head == h then
        s.(head := h + 1, owner := ResetRead(Some(t)), log := s.log + [Pop(Some(t))])
      else
        s.(owner := ResetRead(None), log := s.log + [Pop(None)])
    case ResetRead(r) =>
      s.(owner := ResetWrite(s.head, r))
    case ResetWrite(h, r) =>
      s.(tail := h, owner := Idle, popped := s.popped + [r])
  }

  function ThiefNext(s: State, id: nat, again: bool): State
    requires Shaped(s) && id in s.thieves && s.thieves[id] != Out
  {
    match s.thieves[id]
    case ReadHead =>
      s.(thieves := s.thieves[id := ReadTail(s.head)])
    case ReadTail(h) =>
      s.(thieves := s.thieves[id := if s.tail - h <= 0 then Out else ReadData(h)])
    case ReadData(h) =>
      s.(thieves := s.thieves[id := Cas(h, s.data[Slot(h)])])
    case Cas(h, t) =>
      if s.head == h then
        s.(head := h + 1, thieves := s.thieves[id := Out],
           log := s.log + [Steal(t)], stolen := s.stolen + [t])
      else
        s.(thieves := s.thieves[id := if again then ReadHead else Out])
  }

  // ---------------------------------------------------------------------
  // The abstract double-ended queue
  // ---------------------------------------------------------------------

  /** Pushes and pops act at the end, steals at the front; an empty pop needs an empty queue. */
  function Apply(q: seq<Task>, e: Event): Option<seq<Task>> {
    match e
    case Push(x) => Some(q + [x])
    case Pop(None) => if q == [] then Some(q) else None
    case Pop(Some(x)) => if q != [] && q[|q| - 1] == x then Some(q[..|q| - 1]) else None
    case Steal(x) => if q != [] && q[0] == x then Some(q[1..]) else None
  }

  function Replay(log: seq<Event>): Option<seq<Task>> {
    if log == [] then Some([])
    else
      match Replay(log[..|log| - 1])
      case None => None
      case Some(q) => Apply(q, log[|log| - 1])
  }

  function PushesOf(e: Event): multiset<Task> {
    if e.Push? then multiset{e.x} else multiset{}
  }

  function PopsOf(e: Event): seq<Option<Task>> {
    if e.Pop? then [e.r] else []
  }

  function StealsOf(e: Event): seq<Task> {
    if e.Steal? then [e.y] else []
  }

  function Pushes(log: seq<Event>): multiset<Task> {
    if log == [] then multiset{} else Pushes(log[..|log| - 1]) + PushesOf(log[|log| - 1])
  }

  function Pops(log: seq<Event>): seq<Option<Task>> {
    if log == [] then [] else Pops(log[..|log| - 1]) + PopsOf(log[|log| - 1])
  }

  function Steals(log: seq<Event>): seq<Task> {
    if log == [] then [] else Steals(log[..|log| - 1]) + StealsOf(log[|log| - 1])
  }

  /** The tasks in a sequence of pop results. */
  function Tasks(rs: seq<Option<Task>>): multiset<Task> {
    if rs == [] then multiset{}
    else
      Tasks(rs[..|rs| - 1]) +
      match rs[|rs| - 1] case Some(x) => multiset{x} case None => multiset{}
  }

  /** In a legal history what was pushed is what was popped, what was stolen and what is left. */
  lemma {:induction false} LegalHistoriesConserve(log: seq<Event>)
    requires Replay(log).Some?
    ensures Pushes(log) ==
            Tasks(Pops(log)) + multiset(Steals(log)) + multiset(Replay(log).value)
  {
    if log != [] {
      var before, e := log[..|log| - 1], log[|log| - 1];
      LegalHistoriesConserve(before);
      var q := Replay(before).value;
      EventConserves(q, e);
      TasksConcat(Pops(before), PopsOf(e));
      Rearrange(Pushes(before), Tasks(Pops(before)), multiset(Steals(before)), multiset(q), e,
                multiset(Apply(q, e).value));
    }
  }

  /** Adding the same task to both sides of the balance, or moving it within one. */
  lemma Rearrange(p: multiset<Task>, t: multiset<Task>, s: multiset<Task>, q: multiset<Task>,
                  e: Event, q': multiset<Task>)
    requires p == t + s + q
    requires match e
             case Push(x) => q' == q + multiset{x}
             case Pop(None) => q' == q
             case Pop(Some(x)) => q' + multiset{x} == q
             case Steal(x) => q' + multiset{x} == q
    ensures p + PushesOf(e) == (t + Tasks(PopsOf(e))) + (s + multiset(StealsOf(e))) + q'
  {
  }

  /** The queue after one operation holds what it held, plus a push, minus a pop or steal. */
  lemma EventConserves(q: seq<Task>, e: Event)
    requires Apply(q, e).Some?
    ensures var q' := multiset(Apply(q, e).value);
            match e
            case Push(x) => q' == multiset(q) + multiset{x}
            case Pop(None) => q' == multiset(q)
            case Pop(Some(x)) => q' + multiset{x} == multiset(q)
            case Steal(x) => q' + multiset{x} == multiset(q)
  {
    match e {
      case Push(_) =>
      case Pop(None) =>
      case Pop(Some(x)) => assert q == q[..|q| - 1] + [x];
      case Steal(x) => assert q == [x] + q[1..];
    }
  }

  // ---------------------------------------------------------------------
  // The abstraction and the invariant
  // ---------------------------------------------------------------------

  /** One past the index of the newest live task, also while a pop is in flight. */
  function Top(s: State): int {
    match s.owner
    case PopHead => s.tail + 1
    case PopData(_) => s.tail + 1
    case PopCas(_, _) => s.tail + 1
    case ResetRead(_) => s.head
    case ResetWrite(_, _) => s.head
    case _ => s.tail
  }

  /** The live tasks, oldest first. */
  function Live(s: State): seq<Task>
    requires Shaped(s) && s.head <= Top(s)
  {
    seq(Top(s) - s.head, k requires 0 <= k => s.data[Slot(s.head + k)])
  }

  /** The result of a pop that has taken effect but has not returned. */
  function Pending(s: State): seq<Option<Task>>
    requires Shaped(s)
  {
    match s.owner
    case PopTake => [Some(s.data[Slot(s.tail)])]
    case ResetRead(r) => [r]
    case ResetWrite(_, r) => [r]
    case _ => []
  }

  predicate OwnerInv(s: State)
    requires Shaped(s)
  {
    match s.owner
    case Idle => true
    case PushCheck(_) => true
    case PushWrite(_) => s.tail - s.head < CAPACITY
    case PushBump(x) => s.tail - s.head < CAPACITY && s.data[Slot(s.tail)] == x
    case PopDec => true
    case PopHead => true
    case PopTake => true
    case PopData(h) => s.tail == h <= s.head
    case PopCas(h, t) => s.tail == h <= s.head && s.data[Slot(h)] == t
    case ResetRead(_) => s.tail <= s.head
    case ResetWrite(h, _) => s.tail <= s.head == h
  }

  predicate ThiefInv(s: State, pc: ThiefPc)
    requires Shaped(s)
  {
    match pc
    case Out => true
    case ReadHead => true
    case ReadTail(h) => h <= s.head
    case ReadData(h) => h <= s.head && (h == s.head ==> s.head < Top(s))
    case Cas(h, t) =>
      && h <= s.head
      && (h == s.head ==> s.head < Top(s) && t == s.data[Slot(h)])
  }

  /** What the threads know about the shared fields. */
  predicate ProtocolInv(s: State) {
    && Shaped(s)
    && 0 <= s.head <= Top(s) <= s.head + CAPACITY
    && OwnerInv(s)
    && (forall id <- s.thieves :: ThiefInv(s, s.thieves[id]))
  }

  predicate Inv(s: State) {
    && ProtocolInv(s)
    && Replay(s.log) == Some(Live(s))
    && Pops(s.log) == s.popped + Pending(s)
    && Steals(s.log) == s.stolen
  }

  /** Two live indices never share a slot. */
  lemma SlotsDiffer(i: int, j: int)
    requires 0 < j - i < CAPACITY
    ensures Slot(i) != Slot(j)
  {
  }

  /** The slot written by a push belongs to no live task. */
  lemma PushWriteKeepsLive(s: State)
    requires Shaped(s) && s.owner.PushWrite?
    requires 0 <= s.head <= s.tail < s.head + CAPACITY
    ensures Live(OwnerNext(s)) == Live(s)
  {
    var t := OwnerNext(s);
    forall k | 0 <= k < |Live(s)|
      ensures Live(t)[k] == Live(s)[k]
    {
      SlotsDiffer(s.head + k, s.tail);
    }
  }

  lemma OwnerKeepsProtocol(s: State)
    requires ProtocolInv(s) && s.owner != Idle
    ensures ProtocolInv(OwnerNext(s))
  {
    var t := OwnerNext(s);
    if s.owner.PushWrite? {
      forall id <- t.thieves
        ensures ThiefInv(t, t.thieves[id])
      {
        if t.thieves[id].Cas? && t.thieves[id].h == s.head {
          SlotsDiffer(s.head, s.tail);
        }
      }
    }
  }

  lemma ThiefKeepsProtocol(s: State, id: nat, again: bool)
    requires ProtocolInv(s) && id in s.thieves && s.thieves[id] != Out
    ensures ProtocolInv(ThiefNext(s, id, again))
  {
  }

  lemma Extend(log: seq<Event>, e: Event)
    requires Replay(log).Some?
    ensures Replay(log + [e]) == Apply(Replay(log).value, e)
    ensures Pops(log + [e]) == Pops(log) + PopsOf(e)
    ensures Steals(log + [e]) == Steals(log) + StealsOf(e)
  {
    assert (log + [e])[..|log + [e]| - 1] == log;
  }

  /** An owner step that logs an operation performs it on the live tasks. */
  lemma PushActsOnLive(s: State)
    requires ProtocolInv(s) && s.owner.PushBump?
    ensures var t := OwnerNext(s); Shaped(t) && t.head <= Top(t) && Live(t) == Live(s) + [s.owner.entry]
  {
  }

  lemma PopActsOnLive(s: State)
    requires ProtocolInv(s) && s.owner.PopHead? && s.tail > s.head
    ensures var t := OwnerNext(s);
            && Shaped(t) && t.head <= Top(t) && Live(s) != []
            && Live(s)[|Live(s)| - 1] == s.data[Slot(s.tail)] && Live(t) == Live(s)[..|Live(s)| - 1]
  {
  }

  lemma SwapActsOnLive(s: State)
    requires ProtocolInv(s) && s.owner.PopCas? && s.head == s.owner.h
    ensures var t := OwnerNext(s); Shaped(t) && t.head <= Top(t) && Live(s) == [s.owner.t] && Live(t) == []
  {
  }

  /** A pop that finds nothing finds the queue empty. */
  lemma NothingToPop(s: State)
    requires ProtocolInv(s)
    requires (s.owner.PopHead? && s.tail < s.head) || (s.owner.PopCas? && s.head != s.owner.h)
    ensures var t := OwnerNext(s); Shaped(t) && t.head <= Top(t) && Live(s) == [] && Live(t) == []
  {
  }

  /** The owner steps that take no effect leave the live tasks alone. */
  lemma QuietOwnerKeepsLive(s: State)
    requires ProtocolInv(s) && s.owner != Idle && OwnerNext(s).log == s.log
    ensures var t := OwnerNext(s); Shaped(t) && t.head <= Top(t) && Live(t) == Live(s)
  {
    if s.owner.PushWrite? {
      PushWriteKeepsLive(s);
    } else {
      assert OwnerNext(s).data == s.data && OwnerNext(s).head == s.head;
      assert Top(OwnerNext(s)) == Top(s);
    }
  }

  /** An owner step that logs an operation performs it on the live tasks; the others keep them. */
  lemma OwnerActsOnLive(s: State)
    requires ProtocolInv(s) && s.owner != Idle
    ensures var t := OwnerNext(s);
            && Shaped(t) && t.head <= Top(t)
            && (if |s.log| < |t.log| then Apply(Live(s), t.log[|s.log|]) == Some(Live(t))
                else Live(t) == Live(s))
  {
    match s.owner {
      case PushBump(_) => PushActsOnLive(s);
      case PopHead =>
        if s.tail > s.head {
          PopActsOnLive(s);
        } else if s.tail < s.head {
          NothingToPop(s);
        } else {
          QuietOwnerKeepsLive(s);
        }
      case PopCas(h, _) =>
        if s.head == h {
          SwapActsOnLive(s);
        } else {
          NothingToPop(s);
        }
      case _ => QuietOwnerKeepsLive(s);
    }
  }

  /** What an owner step adds to the record: an operation, a result, both or neither. */
  lemma OwnerLogs(s: State)
    requires Shaped(s) && s.owner != Idle
    ensures var t := OwnerNext(s);
            && Shaped(t) && t.stolen == s.stolen
            && (|| (t.log == s.log && t.popped + Pending(t) == s.popped + Pending(s))
                || (&& |t.log| == |s.log| + 1 && t.log == s.log + [t.log[|s.log|]] && !t.log[|s.log|].Steal?
                    && Pending(s) == [] && t.popped == s.popped && Pending(t) == PopsOf(t.log[|s.log|])))
  {
    match s.owner {
      case PopTake => assert Pending(s) == [Some(s.data[Slot(s.tail)])];
      case ResetWrite(_, r) => assert Pending(s) == [r];
      case _ =>
    }
  }

  lemma InvOwnerStep(s: State)
    requires Inv(s) && s.owner != Idle
    ensures Inv(OwnerNext(s))
  {
    var t := OwnerNext(s);
    OwnerKeepsProtocol(s);
    OwnerActsOnLive(s);
    OwnerLogs(s);
    if t.log != s.log {
      Extend(s.log, t.log[|s.log|]);
    }
  }

  /** A successful steal takes the oldest live task; every other thief step keeps the live tasks. */
  lemma ThiefActsOnLive(s: State, id: nat, again: bool)
    requires ProtocolInv(s) && id in s.thieves && s.thieves[id] != Out
    ensures var t := ThiefNext(s, id, again);
            && Shaped(t) && t.head <= Top(t)
            && (if |s.log| < |t.log| then Apply(Live(s), t.log[|s.log|]) == Some(Live(t))
                else Live(t) == Live(s))
  {
    var t := ThiefNext(s, id, again);
    var pc := s.thieves[id];
    assert ThiefInv(s, pc);
    if pc.Cas? && s.head == pc.h {
      assert Live(t) == Live(s)[1..];
    }
  }

  /** What a thief step adds to the record. */
  lemma ThiefLogs(s: State, id: nat, again: bool)
    requires Shaped(s) && id in s.thieves && s.thieves[id] != Out
    ensures var t := ThiefNext(s, id, again);
            && Shaped(t) && t.popped == s.popped && Pending(t) == Pending(s)
            && (|| (t.log == s.log && t.stolen == s.stolen)
                || (|t.log| == |s.log| + 1 && t.log == s.log + [t.log[|s.log|]] && t.log[|s.log|].Steal?
                    && t.stolen == s.stolen + [t.log[|s.log|].y]))
  {
  }

  lemma InvThiefStep(s: State, id: nat, again: bool)
    requires Inv(s) && id in s.thieves && s.thieves[id] != Out
    ensures Inv(ThiefNext(s, id, again))
  {
    var t := ThiefNext(s, id, again);
    ThiefKeepsProtocol(s, id, again);
    ThiefActsOnLive(s, id, again);
    ThiefLogs(s, id, again);
    if t.log != s.log {
      Extend(s.log, t.log[|s.log|]);
    }
  }

  /** Every step keeps the invariant; in particular it is one legal queue operation or none. */
  lemma InvStep(s: State, a: Action)
    requires Inv(s) && Enabled(s, a)
    ensures Inv(Step(s, a))
  {
    match a {
      case OwnerStep => InvOwnerStep(s);
      case ThiefStep(id, again) => InvThiefStep(s, id, again);
      case _ => assert Live(Step(s, a)) == Live(s);
    }
  }

  // ---------------------------------------------------------------------
  // Results about whole runs
  // ---------------------------------------------------------------------

  /** The `i`-th action leads from the `i`-th state to the next. */
  predicate StepAt(states: seq<State>, actions: seq<Action>, i: nat)
    requires i < |actions| && |states| == |actions| + 1
  {
    Enabled(states[i], actions[i]) && states[i + 1] == Step(states[i], actions[i])
  }

  ghost predicate IsRun(states: seq<State>, actions: seq<Action>) {
    && |states| == |actions| + 1
    && Init(states[0])
    && forall i :: 0 <= i < |actions| ==> StepAt(states, actions, i)
  }

  lemma RunsKeepInv(states: seq<State>, actions: seq<Action>, i: nat)
    requires IsRun(states, actions) && i < |states|
    ensures Inv(states[i])
  {
    assert Live(states[0]) == [];
    for n := 0 to i
      invariant Inv(states[n])
    {
      assert StepAt(states, actions, n);
      InvStep(states[n], actions[n]);
    }
  }

  /**
    Linearizability: in every state of every run the calls that have taken effect
    form a legal history of a double-ended queue whose content is what is live,
    each finished pop and steal returned exactly what that history says, in order,
    and the live tasks fit the ring.
   */
  lemma RefinesDoubleEndedQueue(states: seq<State>, actions: seq<Action>, i: nat)
    requires IsRun(states, actions) && i < |states|
    ensures var s := states[i];
            && Shaped(s)
            && 0 <= Top(s) - s.head <= CAPACITY
            && s.tail - s.head <= CAPACITY
            && Replay(s.log) == Some(Live(s))
            && s.popped <= Pops(s.log) && |Pops(s.log)| <= |s.popped| + 1
            && s.stolen == Steals(s.log)
  {
    RunsKeepInv(states, actions, i);
  }

  /** What the history has pushed is what it has returned and what is live. */
  lemma LoggedIsReturnedPlusLive(states: seq<State>, actions: seq<Action>, i: nat)
    requires IsRun(states, actions) && i < |states|
    ensures var s := states[i];
            && Shaped(s) && s.head <= Top(s)
            && Pushes(s.log) ==
               Tasks(s.popped) + Tasks(Pending(s)) + multiset(s.stolen) + multiset(Live(s))
            && Tasks(s.popped) + multiset(s.stolen) <= Pushes(s.log)
  {
    RunsKeepInv(states, actions, i);
    var s := states[i];
    LegalHistoriesConserve(s.log);
    TasksConcat(s.popped, Pending(s));
  }

  lemma TasksConcat(a: seq<Option<Task>>, b: seq<Option<Task>>)
    requires |b| <= 1
    ensures Tasks(a + b) == Tasks(a) + Tasks(b)
  {
    if b == [] {
      assert a + b == a;
    } else {
      assert (a + b)[..|a + b| - 1] == a;
      assert b[..|b| - 1] == [];
    }
  }

  /** A pop that returns NULL does so while the abstract queue is empty. */
  lemma NullPopSeesEmpty(states: seq<State>, actions: seq<Action>, i: nat)
    requires IsRun(states, actions) && i < |actions|
    requires |states[i].popped| < |states[i + 1].popped|
    requires states[i + 1].popped[|states[i].popped|] == None
    ensures Replay(states[i].log) == Some([])
    ensures Shaped(states[i]) && states[i].head <= Top(states[i]) && Live(states[i]) == []
  {
    RunsKeepInv(states, actions, i);
    assert StepAt(states, actions, i);
    NullPopStep(states[i], actions[i]);
  }

  lemma NullPopStep(s: State, a: Action)
    requires Inv(s) && Enabled(s, a)
    requires |s.popped| < |Step(s, a).popped| && Step(s, a).popped[|s.popped|] == None
    ensures Replay(s.log) == Some([]) && Live(s) == []
  {
    assert Live(s) == [];
  }

  /**
    A thief that gives up because the deque looked empty is right, except that the
    owner may at that moment be competing for the one task that is left.
   */
  lemma EmptyStealSeesAtMostAPop(states: seq<State>, actions: seq<Action>, i: nat, id: nat)
    requires IsRun(states, actions) && i < |actions| && actions[i].ThiefStep? && actions[i].id == id
    requires id in states[i].thieves && states[i].thieves[id].ReadTail?
    requires id in states[i + 1].thieves && states[i + 1].thieves[id] == Out
    ensures var s := states[i];
            && Shaped(s) && s.head <= Top(s)
            && |Live(s)| <= 1
            && (|Live(s)| == 1 ==> s.owner.PopHead? || s.owner.PopData? || s.owner.PopCas?)
  {
    RunsKeepInv(states, actions, i);
    assert StepAt(states, actions, i);
    assert ThiefInv(states[i], states[i].thieves[id]);
  }

  /** The head that a thief has read and is about to act on. */
  function HeadRead(pc: ThiefPc): Option<int> {
    match pc
    case ReadTail(h) => Some(h)
    case ReadData(h) => Some(h)
    case Cas(h, _) => Some(h)
    case _ => None
  }

  lemma HeadReadStep(s: State, a: Action, id: nat)
    requires Enabled(s, a) && id in Step(s, a).thieves && HeadRead(Step(s, a).thieves[id]).Some?
    ensures id in s.thieves
    ensures || HeadRead(s.thieves[id]) == HeadRead(Step(s, a).thieves[id])
            || (s.thieves[id] == ReadHead && HeadRead(Step(s, a).thieves[id]) == Some(s.head))
  {
  }

  /** What a thief believes to be the head was the head at the step of this call that read it. */
  lemma {:induction false} HeadWasRead(states: seq<State>, actions: seq<Action>, i: nat, id: nat) returns (j: nat)
    requires IsRun(states, actions) && i < |states|
    requires id in states[i].thieves && HeadRead(states[i].thieves[id]).Some?
    ensures j < i && id in states[j].thieves && states[j].thieves[id] == ReadHead
    ensures Some(states[j].head) == HeadRead(states[i].thieves[id])
    ensures forall k :: j < k <= i ==>
              id in states[k].thieves && HeadRead(states[k].thieves[id]) == HeadRead(states[i].thieves[id])
    decreases i
  {
    assert i > 0;
    assert StepAt(states, actions, i - 1);
    HeadReadStep(states[i - 1], actions[i - 1], id);
    if HeadRead(states[i - 1].thieves[id]) == HeadRead(states[i].thieves[id]) {
      j := HeadWasRead(states, actions, i - 1, id);
    } else {
      j := i - 1;
    }
  }

  /**
    A thief whose swap fails lost to another swap: since it read `head` in this call,
    `head` has moved on.
   */
  lemma LostSwapMeansHeadMoved(states: seq<State>, actions: seq<Action>, i: nat, id: nat) returns (j: nat)
    requires IsRun(states, actions) && i < |actions| && actions[i].ThiefStep? && actions[i].id == id
    requires id in states[i].thieves && states[i].thieves[id].Cas?
    requires |states[i + 1].stolen| == |states[i].stolen|
    ensures j < i && id in states[j].thieves && states[j].thieves[id] == ReadHead
    ensures states[j].head == states[i].thieves[id].h < states[i].head
  {
    j := HeadWasRead(states, actions, i, id);
    RunsKeepInv(states, actions, i);
    assert StepAt(states, actions, i);
    assert ThiefInv(states[i], states[i].thieves[id]);
  }

  /** A push is refused exactly when the ring is full at the moment the owner looks. */
  lemma PushRefusedIffFull(states: seq<State>, actions: seq<Action>, i: nat)
    requires IsRun(states, actions) && i < |actions|
    requires actions[i].OwnerStep? && states[i].owner.PushCheck?
    ensures Shaped(states[i]) && states[i].head <= Top(states[i])
    ensures states[i + 1].owner == Idle <==> |Live(states[i])| == CAPACITY
  {
    RunsKeepInv(states, actions, i);
    assert StepAt(states, actions, i);
  }
}
