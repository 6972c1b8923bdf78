/**
  What callers of set and clear get: the lock that is granted is the one asked for,
  clearing hands it on, and every call goes on whenever it is not waiting.
 */
module ShmemCalls {
  import opened Common
  import opened ShmemLock

  /** At step `k` client `c` calls set on `l`, and it has not been idle since, up to state `i`. */
  predicate SetSince(states: seq<State>, actions: seq<Action>, k: nat, i: nat, c: Client, l: Lock)
    requires |states| == |actions| + 1
  {
    && k < i < |states| && actions[k] == CallSet(c, l)
    && forall m :: k < m <= i ==> c in states[m].clients && states[m].clients[c] != Idle
  }

  lemma OthersKeepPc(s: State, a: Action, c: Client)
    requires Enabled(s, a) && c in s.clients && a.c != c
    ensures c in Step(s, a).clients && Step(s, a).clients[c] == s.clients[c]
  {
  }

  /** A call stays with its lock. */
  lemma LockStays(s: State, a: Action, c: Client)
    requires Enabled(s, a) && c in s.clients
    ensures c in Step(s, a).clients
    ensures var pc, pc' := s.clients[c], Step(s, a).clients[c];
            && (pc != Idle && pc' != Idle ==> pc'.l == pc.l)
            && (pc == Idle && pc' != Idle ==> a == CallSet(c, pc'.l))
  {
    if a.c != c {
      OthersKeepPc(s, a, c);
    }
  }

  lemma ClientsStay(s: State, a: Action)
    requires Enabled(s, a)
    ensures Step(s, a).clients.Keys == s.clients.Keys
  {
  }

  /** From set to the end of clear a client deals with the lock it asked for. */
  lemma LockIsTheOneAskedFor(states: seq<State>, actions: seq<Action>, k: nat, i: nat, c: Client, l: Lock)
    requires IsRun(states, actions) && SetSince(states, actions, k, i, c, l)
    ensures states[i].clients[c].l == l
  {
    assert StepAt(states, actions, k);
    LockStays(states[k], actions[k], c);
    for m := k + 1 to i
      invariant states[m].clients[c].l == l
    {
      assert StepAt(states, actions, m);
      LockStays(states[m], actions[m], c);
    }
  }

  /** A client that is not idle has called set, on the lock it deals with. */
  lemma {:induction false} BusyMeansCalled(states: seq<State>, actions: seq<Action>, i: nat, c: Client) returns (k: nat)
    requires IsRun(states, actions) && i < |states| && c in states[i].clients && states[i].clients[c] != Idle
    ensures SetSince(states, actions, k, i, c, states[i].clients[c].l)
    decreases i
  {
    assert i > 0;
    assert StepAt(states, actions, i - 1);
    ClientsStay(states[i - 1], actions[i - 1]);
    LockStays(states[i - 1], actions[i - 1], c);
    if states[i - 1].clients[c] == Idle {
      k := i - 1;
    } else {
      k := BusyMeansCalled(states, actions, i - 1, c);
    }
  }

  /**
    Mutual exclusion: of the clients that have called set on `l` and have not finished
    clearing it, at most one has been granted it and has not yet handed it on.
   */
  lemma AtMostOneHolds(states: seq<State>, actions: seq<Action>, i: nat, l: Lock, c: Client, k: nat, d: Client, n: nat)
    requires IsRun(states, actions)
    requires SetSince(states, actions, k, i, c, l) && SetSince(states, actions, n, i, d, l)
    requires Granted(states[i].clients[c]) && Granted(states[i].clients[d])
    ensures c == d
  {
    LockIsTheOneAskedFor(states, actions, k, i, c, l);
    LockIsTheOneAskedFor(states, actions, n, i, d, l);
    MutualExclusion(states, actions, i, c, d);
  }

  /** Set returns only with the lock granted, and the node's library call made. */
  lemma SetReturnsHolding(s: State, c: Client, made: Promise)
    requires Inv(s) && Enabled(s, Run(c, made)) && Step(s, Run(c, made)).clients[c].Holding?
    ensures s.clients[c].SetLive? && s.clients[c].l in s.nodeHolds
    ensures var s' := Step(s, Run(c, made));
            && s.clients[c].l in s'.locks && s'.locks[s.clients[c].l].live == Some(s.clients[c].p)
            && s'.clients[c].l == s.clients[c].l
  {
    assert ClientInv(s, c, s.clients[c]);
    if s.clients[c].SetLive? {
      assert LockInv(s, s.clients[c].l);
    }
  }

  /** Clear ends by putting its client's own promise, which serves the next in line; the node no longer has the lock. */
  lemma ClearHandsOn(s: State, c: Client, made: Promise)
    requires Inv(s) && Enabled(s, Run(c, made)) && Step(s, Run(c, made)).clients[c] == Idle
    ensures s.clients[c].ClearPut?
    ensures var pc, s' := s.clients[c], Step(s, Run(c, made));
            && pc.l in s.locks && pc.k < |s.locks[pc.l].queue| && pc.q == s.locks[pc.l].queue[pc.k]
            && s'.put == s.put + {pc.q} && pc.q !in s.put
            && pc.l in s'.locks && s'.locks[pc.l].served == pc.k + 1
            && pc.l !in s'.nodeHolds
  {
    assert ClientInv(s, c, s.clients[c]);
    if HasTicket(s.clients[c]) {
      assert LockInv(s, s.clients[c].l);
    }
  }

  /** A bound on the steps of a call. */
  function Rank(pc: Pc): nat {
    match pc
    case Idle => 0
    case Holding(_, _) => 0
    case SetMutex(_) => 6
    case SetBody(_) => 5
    case SetUnlock(_, _, _, _) => 4
    case SetWait(_, _, _, _) => 3
    case SetCheck(_, _, _) => 2
    case SetLive(_, _, _) => 1
    case ClearMutex(_, _) => 7
    case ClearBody(_, _) => 6
    case ClearUnlock(_, _) => 5
    case ClearWait(_, _) => 4
    case ClearRead(_, _) => 3
    case ClearNull(_, _, _) => 2
    case ClearPut(_, _, _) => 1
  }

  lemma StepSinks(s: State, c: Client, made: Promise)
    requires Enabled(s, Run(c, made)) && !Step(s, Run(c, made)).aborted
    ensures c in Step(s, Run(c, made)).clients
    ensures Rank(Step(s, Run(c, made)).clients[c]) < Rank(s.clients[c])
  {
  }

  /** Each step brings a call nearer to its end. */
  lemma StepsSink(states: seq<State>, actions: seq<Action>, i: nat, c: Client)
    requires IsRun(states, actions) && i < |actions| && actions[i].Run? && actions[i].c == c
    ensures c in states[i].clients && c in states[i + 1].clients
    ensures Rank(states[i + 1].clients[c]) < Rank(states[i].clients[c])
  {
    assert StepAt(states, actions, i);
    AssertionsHold(states, actions, i + 1);
    StepSinks(states[i], c, actions[i].made);
  }
}
