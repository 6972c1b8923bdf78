/**
  The on-node lock hand-off of modules/openshmem/src/hclib_openshmem.cpp as a
  machine of atomic steps.

  Setting a lock chains an asynchronous acquisition behind the promise of the
  previous setter; clearing it puts the promise of the current holder.  The calls
  into the OpenSHMEM library are single steps that take or give up the node's
  claim on the lock.

  `queue`, `clients`, `served` and `granted` in a lock, the ticket `k` of a client
  and `nodeHolds` are auxiliary: they record and never influence a step.
 */
module ShmemLock {
  import opened Common

  type Lock = nat
  type Client = nat
  type Promise = nat

  datatype Pc =
    | Idle
    | SetMutex(l: Lock)                                    // waiting for the mutex
    | SetBody(l: Lock)                                     // holding it
    | SetUnlock(l: Lock, k: nat, p: Promise, after: Option<Promise>)
    | SetWait(l: Lock, k: nat, p: Promise, after: Option<Promise>)
    | SetCheck(l: Lock, k: nat, p: Promise)                // about to assert that live is NULL
    | SetLive(l: Lock, k: nat, p: Promise)                 // about to store its promise in live
    | Holding(l: Lock, k: nat)                             // between set and clear
    | ClearMutex(l: Lock, k: nat)
    | ClearBody(l: Lock, k: nat)
    | ClearUnlock(l: Lock, k: nat)
    | ClearWait(l: Lock, k: nat)
    | ClearRead(l: Lock, k: nat)                           // about to assert and read live
    | ClearNull(l: Lock, k: nat, q: Promise)               // about to reset live
    | ClearPut(l: Lock, k: nat, q: Promise)                // about to put the promise

  datatype Context = Context(
    lastLock: Option<Promise>,
    live: Option<Promise>,
    queue: seq<Promise>,      // the promises, in the order the mutex was acquired
    clients: seq<Client>,     // whose they are
    served: nat,              // how many have been put
    granted: seq<Promise>)    // the order in which the lock was granted

  datatype State = State(
    locks: map<Lock, Context>,
    mutex: Option<Client>,
    clients: map<Client, Pc>,
    created: set<Promise>,
    put: set<Promise>,
    nodeHolds: set<Lock>,
    aborted: bool)

  datatype Action =
    | CallSet(c: Client, l: Lock)
    | CallClear(c: Client)
    | Run(c: Client, made: Promise)

  predicate Init(s: State) {
    && s.locks == map[] && s.mutex == None && s.created == {} && s.put == {} && s.nodeHolds == {}
    && !s.aborted
    && forall c <- s.clients :: s.clients[c] == Idle
  }

  /** Clients clear only the lock they hold. */
  predicate Enabled(s: State, a: Action) {
    && !s.aborted
    && a.c in s.clients
    && match a
       case CallSet(c, _) => s.clients[c] == Idle
       case CallClear(c) => s.clients[c].Holding?
       case Run(c, p) =>
         match s.clients[c]
         case Idle => false
         case Holding(_, _) => false
         case SetMutex(_) => s.mutex == None
         case ClearMutex(_, _) => s.mutex == None
         case SetBody(_) => p !in s.created
         case SetWait(_, _, _, after) => after.Some? ==> after.value in s.put
         case _ => true
  }

  function Goto(s: State, c: Client, pc: Pc): State {
    s.(clients := s.clients[c := pc])
  }

  const FreshContext: Context := Context(None, None, [], [], 0, [])

  /** The entry for a lock, inserted on first use. */
  function Find(s: State, l: Lock): Context {
    if l in s.locks then s.locks[l] else FreshContext
  }

  function Step(s: State, a: Action): State
    requires Enabled(s, a)
  {
    match a
    case CallSet(c, l) => Goto(s, c, SetMutex(l))
    case CallClear(c) => Goto(s, c, ClearMutex(s.clients[c].l, s.clients[c].k))
    case Run(c, p) => RunClient(s, c, p)
  }

  function RunClient(s: State, c: Client, made: Promise): State
    requires Enabled(s, Run(c, made))
  {
    match s.clients[c]
    case SetMutex(l) => Goto(s.(mutex := Some(c)), c, SetBody(l))
    case SetBody(l) => Enqueue(s, c, l, made)
    case SetUnlock(l, k, p, after) => Goto(s.(mutex := None), c, SetWait(l, k, p, after))
    case SetWait(l, k, p, after) => Grant(s, c, l, k, p)
    case SetCheck(l, k, p) =>
      if Find(s, l).live.None? then Goto(s, c, SetLive(l, k, p)) else s.(aborted := true)
    case SetLive(l, k, p) =>
      Goto(s.(locks := s.locks[l := Find(s, l).(live := Some(p))]), c, Holding(l, k))
    case ClearMutex(l, k) => Goto(s.(mutex := Some(c)), c, ClearBody(l, k))
    case ClearBody(l, k) => if l in s.locks then Goto(s, c, ClearUnlock(l, k)) else s.(aborted := true)
    case ClearUnlock(l, k) => Goto(s.(mutex := None), c, ClearWait(l, k))
    case ClearWait(l, k) => Goto(s.(nodeHolds := s.nodeHolds - {l}), c, ClearRead(l, k))
    case ClearRead(l, k) =>
      if Find(s, l).live.Some? then Goto(s, c, ClearNull(l, k, Find(s, l).live.value)) else s.(aborted := true)
    case ClearNull(l, k, q) =>
      Goto(s.(locks := s.locks[l := Find(s, l).(live := None)]), c, ClearPut(l, k, q))
    case ClearPut(l, k, q) =>
      Goto(s.(put := s.put + {q}, locks := s.locks[l := Find(s, l).(served := Find(s, l).served + 1)]), c, Idle)
    case _ => s
  }

  /** Under the mutex: chain behind the last promise and leave a new one. */
  function Enqueue(s: State, c: Client, l: Lock, made: Promise): State {
    var x := Find(s, l);
    Goto(s.(created := s.created + {made},
            locks := s.locks[l := x.(lastLock := Some(made), queue := x.queue + [made], clients := x.clients + [c])]),
         c, SetUnlock(l, |x.queue|, made, x.lastLock))
  }

  /** The awaited promise has been put: the library call takes the lock for this node. */
  function Grant(s: State, c: Client, l: Lock, k: nat, p: Promise): State {
    Goto(s.(nodeHolds := s.nodeHolds + {l}, locks := s.locks[l := Find(s, l).(granted := Find(s, l).granted + [p])]),
         c, SetCheck(l, k, p))
  }

  // ---------------------------------------------------------------------
  // The invariant
  // ---------------------------------------------------------------------

  /** The client has asked for the lock and has not given it up. */
  predicate HasTicket(pc: Pc) {
    !pc.Idle? && !pc.SetMutex? && !pc.SetBody?
  }

  /** The client has been granted the lock. */
  predicate Granted(pc: Pc) {
    HasTicket(pc) && !pc.SetUnlock? && !pc.SetWait?
  }

  /** The client's promise is in `live`. */
  predicate Live(pc: Pc) {
    Granted(pc) && !pc.SetCheck? && !pc.SetLive? && !pc.ClearPut?
  }

  /** The node has the lock on behalf of this client. */
  predicate OnNode(pc: Pc) {
    Granted(pc) && !pc.ClearRead? && !pc.ClearNull? && !pc.ClearPut?
  }

  predicate InMutex(pc: Pc) {
    pc.SetBody? || pc.SetUnlock? || pc.ClearBody? || pc.ClearUnlock?
  }

  function Last(q: seq<Promise>): Option<Promise> {
    if q == [] then None else Some(q[|q| - 1])
  }

  /** Someone is between the grant and the put. */
  predicate Busy(s: State, x: Context) {
    && x.served < |x.clients|
    && x.clients[x.served] in s.clients
    && Granted(s.clients[x.clients[x.served]])
  }

  predicate LockInv(s: State, l: Lock)
    requires l in s.locks
  {
    var x := s.locks[l];
    && x.lastLock == Last(x.queue)
    && |x.clients| == |x.queue|
    && x.served <= |x.queue|
    && (forall i :: 0 <= i < |x.queue| ==> x.queue[i] in s.created && (x.queue[i] in s.put <==> i < x.served))
    && (forall i, j :: 0 <= i < j < |x.queue| ==> x.queue[i] != x.queue[j])
    && (forall i :: x.served <= i < |x.queue| ==>
          && x.clients[i] in s.clients
          && HasTicket(s.clients[x.clients[i]])
          && s.clients[x.clients[i]].l == l && s.clients[x.clients[i]].k == i
          && (i > x.served ==> !Granted(s.clients[x.clients[i]])))
    && x.granted == x.queue[..x.served] + (if Busy(s, x) then [x.queue[x.served]] else [])
    && (x.live.Some? <==> Busy(s, x) && Live(s.clients[x.clients[x.served]]))
    && (x.live.Some? ==> x.live.value == x.queue[x.served])
    && (l in s.nodeHolds <==> Busy(s, x) && OnNode(s.clients[x.clients[x.served]]))
  }

  predicate ClientInv(s: State, c: Client, pc: Pc) {
    && (InMutex(pc) <==> s.mutex == Some(c))
    && (HasTicket(pc) ==>
          && pc.l in s.locks
          && s.locks[pc.l].served <= pc.k < |s.locks[pc.l].queue|
          && |s.locks[pc.l].clients| == |s.locks[pc.l].queue|
          && s.locks[pc.l].clients[pc.k] == c
          && (Granted(pc) ==> pc.k == s.locks[pc.l].served)
          && PromiseInv(s.locks[pc.l].queue, pc))
  }

  predicate PromiseInv(queue: seq<Promise>, pc: Pc)
    requires HasTicket(pc) && pc.k < |queue|
  {
    match pc
    case SetUnlock(_, k, p, after) => p == queue[k] && after == Last(queue[..k])
    case SetWait(_, k, p, after) => p == queue[k] && after == Last(queue[..k])
    case SetCheck(_, k, p) => p == queue[k]
    case SetLive(_, k, p) => p == queue[k]
    case ClearNull(_, k, q) => q == queue[k]
    case ClearPut(_, k, q) => q == queue[k]
    case _ => true
  }

  predicate Inv(s: State) {
    && (forall l <- s.locks :: LockInv(s, l))
    && (forall c <- s.clients :: ClientInv(s, c, s.clients[c]))
    && (forall l, m :: l in s.locks && m in s.locks && l != m ==> Apart(s.locks[l].queue, s.locks[m].queue))
    && Base(s)
  }

  predicate Base(s: State) {
    && s.nodeHolds <= s.locks.Keys
    && s.put <= s.created
    && (s.mutex.Some? ==> s.mutex.value in s.clients)
    && !s.aborted
  }

  /** Promises of different locks differ. */
  predicate Apart(q: seq<Promise>, r: seq<Promise>) {
    forall i :: 0 <= i < |q| ==> q[i] !in r
  }

  // ---------------------------------------------------------------------
  // What a step of client `c` on lock `l` leaves alone
  // ---------------------------------------------------------------------

  predicate OthersSame(s: State, s': State, c: Client) {
    && s'.clients.Keys == s.clients.Keys && c in s.clients
    && (forall d <- s.clients :: d != c ==> s'.clients[d] == s.clients[d])
  }

  /** The queue of the lock only grows, and only the client being served moves it on. */
  predicate LockMoves(x: Context, x': Context, c: Client) {
    && x.queue <= x'.queue && x.clients <= x'.clients && |x'.clients| == |x'.queue|
    && (x'.served == x.served ||
        (x'.served == x.served + 1 && x.served < |x.clients| && x.clients[x.served] == c))
  }

  predicate Effect(s: State, s': State, c: Client, l: Lock) {
    && OthersSame(s, s', c)
    && (forall m <- s.locks :: m in s'.locks && (m != l ==> s'.locks[m] == s.locks[m]))
    && s'.locks.Keys <= s.locks.Keys + {l}
    && (l in s.locks ==> LockMoves(s.locks[l], s'.locks[l], c))
    && (HasTicket(s.clients[c]) ==> s.clients[c].l == l)
    && s.created <= s'.created
    && (forall p <- s.created :: p in s'.put && p !in s.put ==> l in s.locks && p in s.locks[l].queue)
    && s.put <= s'.put
    && (forall m <- s.locks :: m != l ==> (m in s'.nodeHolds <==> m in s.nodeHolds))
    && (forall d <- s.clients :: d != c ==> (s'.mutex == Some(d) <==> s.mutex == Some(d)))
  }

  lemma OtherLockKept(s: State, s': State, c: Client, l: Lock, m: Lock)
    requires Effect(s, s', c, l) && m in s.locks && m != l && LockInv(s, m)
    requires l in s.locks ==> Apart(s.locks[m].queue, s.locks[l].queue)
    ensures LockInv(s', m)
  {
    var x := s.locks[m];
    forall i | x.served <= i < |x.queue|
      ensures x.clients[i] != c
    {
    }
    assert Busy(s', x) == Busy(s, x);
  }

  lemma OtherClientKept(s: State, s': State, c: Client, l: Lock, d: Client, pc: Pc)
    requires Effect(s, s', c, l) && d in s.clients && d != c && ClientInv(s, d, pc)
    ensures ClientInv(s', d, pc)
  {
    if HasTicket(pc) && pc.l == l {
      assert s'.locks[l].queue[..pc.k] == s.locks[l].queue[..pc.k];
    }
  }

  /** The step is `c`'s, touches at most `l`, and leaves both in order. */
  ghost predicate Touches(s: State, s': State, c: Client, l: Lock) {
    && Effect(s, s', c, l)
    && (l in s'.locks ==> LockInv(s', l))
    && ClientInv(s', c, s'.clients[c])
    && (l in s'.locks ==>
          forall i :: 0 <= i < |s'.locks[l].queue| ==>
            s'.locks[l].queue[i] !in s.created || (l in s.locks && s'.locks[l].queue[i] in s.locks[l].queue))
    && Base(s')
  }

  /** What a client knows before it takes a step. */
  ghost predicate Ready(s: State, c: Client, l: Lock) {
    && Base(s) && c in s.clients && ClientInv(s, c, s.clients[c])
    && (HasTicket(s.clients[c]) ==> s.clients[c].l == l)
    && (l in s.locks ==> LockInv(s, l))
  }

  lemma LocksKept(s: State, s': State, c: Client, l: Lock)
    requires Touches(s, s', c, l) && forall m <- s.locks :: LockInv(s, m)
    requires forall m <- s.locks :: m != l && l in s.locks ==> Apart(s.locks[m].queue, s.locks[l].queue)
    ensures forall m <- s'.locks :: LockInv(s', m)
  {
    forall m <- s'.locks
      ensures LockInv(s', m)
    {
      if m != l {
        OtherLockKept(s, s', c, l, m);
      }
    }
  }

  lemma ClientsKept(s: State, s': State, c: Client, l: Lock)
    requires Touches(s, s', c, l) && forall d <- s.clients :: ClientInv(s, d, s.clients[d])
    ensures forall d <- s'.clients :: ClientInv(s', d, s'.clients[d])
  {
    forall d <- s'.clients
      ensures ClientInv(s', d, s'.clients[d])
    {
      if d != c {
        OtherClientKept(s, s', c, l, d, s.clients[d]);
      }
    }
  }

  lemma QueuesAreCreated(s: State, m: Lock)
    requires m in s.locks && LockInv(s, m)
    ensures forall i :: 0 <= i < |s.locks[m].queue| ==> s.locks[m].queue[i] in s.created
  {
  }

  lemma InvTouches(s: State, s': State, c: Client, l: Lock)
    requires Inv(s) && Touches(s, s', c, l)
    ensures Inv(s')
  {
    LocksKept(s, s', c, l);
    ClientsKept(s, s', c, l);
    forall m <- s.locks
      ensures forall i :: 0 <= i < |s.locks[m].queue| ==> s.locks[m].queue[i] in s.created
    {
      QueuesAreCreated(s, m);
    }
    QueuesApart(s, s', l);
  }

  /** A promise made for one lock is new to the others. */
  lemma QueuesApart(s: State, s': State, l: Lock)
    requires forall m <- s.locks :: m in s'.locks && (m != l ==> s'.locks[m] == s.locks[m])
    requires s'.locks.Keys <= s.locks.Keys + {l}
    requires forall m <- s.locks :: forall i :: 0 <= i < |s.locks[m].queue| ==> s.locks[m].queue[i] in s.created
    requires forall m, n :: m in s.locks && n in s.locks && m != n ==> Apart(s.locks[m].queue, s.locks[n].queue)
    requires l in s'.locks ==>
               forall i :: 0 <= i < |s'.locks[l].queue| ==>
                 s'.locks[l].queue[i] !in s.created || (l in s.locks && s'.locks[l].queue[i] in s.locks[l].queue)
    ensures forall m, n :: m in s'.locks && n in s'.locks && m != n ==> Apart(s'.locks[m].queue, s'.locks[n].queue)
  {
    forall m, n | m in s'.locks && n in s'.locks && m != n
      ensures Apart(s'.locks[m].queue, s'.locks[n].queue)
    {
      if m == l && l in s.locks {
        assert Apart(s.locks[l].queue, s.locks[n].queue);
      } else if n == l && l in s.locks {
        assert Apart(s.locks[m].queue, s.locks[l].queue);
      }
    }
  }

  // ---------------------------------------------------------------------
  // The steps
  // ---------------------------------------------------------------------

  /** The same stage as far as tickets, grants, `live` and the node are concerned. */
  predicate SameStage(pc: Pc, pc': Pc) {
    && HasTicket(pc) == HasTicket(pc') && Granted(pc) == Granted(pc')
    && Live(pc) == Live(pc') && OnNode(pc) == OnNode(pc')
    && (HasTicket(pc) ==> pc'.l == pc.l && pc'.k == pc.k)
  }

  /** A step that changes nothing but the mutex and the client's place in the code. */
  lemma QuietTouches(s: State, s': State, c: Client, l: Lock)
    requires Ready(s, c, l) && c in s'.clients
    requires s' == Goto(s.(mutex := s'.mutex), c, s'.clients[c])
    requires SameStage(s.clients[c], s'.clients[c])
    requires HasTicket(s.clients[c]) ==> PromiseInv(s.locks[l].queue, s'.clients[c])
    requires s'.mutex == s.mutex || (s.mutex == None && s'.mutex == Some(c)) || (s.mutex == Some(c) && s'.mutex == None)
    requires InMutex(s'.clients[c]) <==> s'.mutex == Some(c)
    ensures Touches(s, s', c, l)
  {
    QuietEffect(s, s', c, l);
    if l in s.locks {
      QuietLock(s, s', c, l);
    }
  }

  lemma QuietEffect(s: State, s': State, c: Client, l: Lock)
    requires c in s.clients && c in s'.clients
    requires s' == Goto(s.(mutex := s'.mutex), c, s'.clients[c])
    requires HasTicket(s.clients[c]) ==> s.clients[c].l == l
    requires s'.mutex == s.mutex || (s.mutex == None && s'.mutex == Some(c)) || (s.mutex == Some(c) && s'.mutex == None)
    requires l in s.locks ==> |s.locks[l].clients| == |s.locks[l].queue|
    ensures Effect(s, s', c, l)
  {
  }

  lemma QuietLock(s: State, s': State, c: Client, l: Lock)
    requires l in s.locks && LockInv(s, l) && s'.locks == s.locks
    requires s'.created == s.created && s'.put == s.put && s'.nodeHolds == s.nodeHolds
    requires OthersSame(s, s', c) && SameStage(s.clients[c], s'.clients[c])
    ensures LockInv(s', l)
  {
    assert Busy(s', s.locks[l]) == Busy(s, s.locks[l]);
  }

  lemma CallTouches(s: State, a: Action, l: Lock)
    requires Enabled(s, a) && !a.Run? && Ready(s, a.c, l)
    requires a.CallSet? ==> l == a.l
    ensures Touches(s, Step(s, a), a.c, l)
  {
    QuietTouches(s, Step(s, a), a.c, l);
  }

  lemma MutexTouches(s: State, c: Client, made: Promise)
    requires Enabled(s, Run(c, made))
    requires var pc := s.clients[c];
             pc.SetMutex? || pc.SetUnlock? || pc.ClearMutex? || pc.ClearBody? || pc.ClearUnlock?
    requires Ready(s, c, s.clients[c].l)
    ensures Touches(s, RunClient(s, c, made), c, s.clients[c].l)
  {
    QuietTouches(s, RunClient(s, c, made), c, s.clients[c].l);
  }

  /** `live` is NULL when a setter looks and not NULL when a clearer does. */
  lemma LiveChecksTouch(s: State, c: Client, made: Promise)
    requires Enabled(s, Run(c, made)) && (s.clients[c].SetCheck? || s.clients[c].ClearRead?)
    requires Ready(s, c, s.clients[c].l)
    ensures !RunClient(s, c, made).aborted && Touches(s, RunClient(s, c, made), c, s.clients[c].l)
  {
    QuietTouches(s, RunClient(s, c, made), c, s.clients[c].l);
  }

  lemma EnqueueTouches(s: State, c: Client, made: Promise)
    requires Enabled(s, Run(c, made)) && s.clients[c].SetBody? && Ready(s, c, s.clients[c].l)
    ensures Touches(s, RunClient(s, c, made), c, s.clients[c].l)
  {
    var l := s.clients[c].l;
    EnqueueLock(s, c, l, made);
    TicketEffect(s, Enqueue(s, c, l, made), c, l);
  }

  lemma EnqueueLock(s: State, c: Client, l: Lock, made: Promise)
    requires c in s.clients && s.clients[c] == SetBody(l) && made !in s.created && s.put <= s.created
    requires l in s.locks ==> LockInv(s, l)
    requires l !in s.locks ==> l !in s.nodeHolds
    ensures LockInv(Enqueue(s, c, l, made), l)
  {
    var s' := Enqueue(s, c, l, made);
    var x, x' := Find(s, l), s'.locks[l];
    assert Busy(s', x') == (l in s.locks && Busy(s, x));
  }

  /** A client whose predecessor's promise has been put is the one being served. */
  lemma PredecessorPutMeansServed(s: State, c: Client)
    requires c in s.clients && s.clients[c].SetWait? && ClientInv(s, c, s.clients[c])
    requires LockInv(s, s.clients[c].l)
    requires s.clients[c].after.Some? ==> s.clients[c].after.value in s.put
    ensures s.clients[c].k == s.locks[s.clients[c].l].served
  {
    var SetWait(l, k, p, after) := s.clients[c];
    if k > 0 {
      assert after == Some(s.locks[l].queue[k - 1]);
    }
  }

  lemma GrantTouches(s: State, c: Client, made: Promise)
    requires Enabled(s, Run(c, made)) && s.clients[c].SetWait? && Ready(s, c, s.clients[c].l)
    ensures s.clients[c].l !in s.nodeHolds
    ensures Touches(s, RunClient(s, c, made), c, s.clients[c].l)
  {
    var SetWait(l, k, p, after) := s.clients[c];
    PredecessorPutMeansServed(s, c);
    GrantLock(s, c, l, k, p);
    TicketEffect(s, Grant(s, c, l, k, p), c, l);
  }

  lemma GrantLock(s: State, c: Client, l: Lock, k: nat, p: Promise)
    requires c in s.clients && HasTicket(s.clients[c]) && !Granted(s.clients[c])
    requires s.clients[c].l == l && s.clients[c].k == k
    requires l in s.locks && LockInv(s, l) && k == s.locks[l].served < |s.locks[l].queue|
    requires s.locks[l].clients[k] == c && p == s.locks[l].queue[k]
    ensures LockInv(Grant(s, c, l, k, p), l)
  {
    var s' := Grant(s, c, l, k, p);
    assert !Busy(s, s.locks[l]) && Busy(s', s'.locks[l]);
  }

  /** A step that changes the entry of `l`, its promises and the client. */
  lemma TicketEffect(s: State, s': State, c: Client, l: Lock)
    requires OthersSame(s, s', c) && (HasTicket(s.clients[c]) ==> s.clients[c].l == l)
    requires l in s'.locks && s'.locks == s.locks[l := s'.locks[l]]
    requires l in s.locks ==> LockMoves(s.locks[l], s'.locks[l], c)
    requires s.created <= s'.created && s'.mutex == s.mutex && s.put <= s'.put
    requires forall p <- s'.put :: p in s.put || (l in s.locks && p in s.locks[l].queue)
    requires s'.nodeHolds - {l} == s.nodeHolds - {l}
    ensures Effect(s, s', c, l)
  {
    forall m <- s.locks | m != l
      ensures m in s'.nodeHolds <==> m in s.nodeHolds
    {
      assert m in s'.nodeHolds - {l} <==> m in s.nodeHolds - {l};
    }
  }

  /** The holder stores or resets `live`, or gives the lock back to the network. */
  lemma HolderTouches(s: State, c: Client, made: Promise)
    requires Enabled(s, Run(c, made))
    requires s.clients[c].SetLive? || s.clients[c].ClearNull? || s.clients[c].ClearWait?
    requires Ready(s, c, s.clients[c].l)
    ensures Touches(s, RunClient(s, c, made), c, s.clients[c].l)
  {
    var l, s' := s.clients[c].l, RunClient(s, c, made);
    assert s'.locks == s.locks[l := s'.locks[l]];
    HolderLock(s, s', c, l);
    TicketEffect(s, s', c, l);
  }

  lemma HolderLock(s: State, s': State, c: Client, l: Lock)
    requires OthersSame(s, s', c) && l in s.locks && l in s'.locks && LockInv(s, l)
    requires Granted(s.clients[c]) && Granted(s'.clients[c]) && s.clients[c].l == l == s'.clients[c].l
    requires s.clients[c].k == s'.clients[c].k == s.locks[l].served < |s.locks[l].queue|
    requires s.locks[l].clients[s.locks[l].served] == c
    requires s'.locks[l] == s.locks[l].(live := s'.locks[l].live)
    requires s'.created == s.created && s'.put == s.put
    requires s'.locks[l].live == if Live(s'.clients[c]) then Some(s.locks[l].queue[s.locks[l].served]) else None
    requires l in s'.nodeHolds <==> OnNode(s'.clients[c])
    ensures LockInv(s', l)
  {
    assert Busy(s', s'.locks[l]) && Busy(s, s.locks[l]);
  }

  lemma ClearPutTouches(s: State, c: Client, made: Promise)
    requires Enabled(s, Run(c, made)) && s.clients[c].ClearPut? && Ready(s, c, s.clients[c].l)
    ensures Touches(s, RunClient(s, c, made), c, s.clients[c].l)
  {
    var l, s' := s.clients[c].l, RunClient(s, c, made);
    ClearPutLock(s, s', c, l);
    TicketEffect(s, s', c, l);
  }

  lemma ClearPutLock(s: State, s': State, c: Client, l: Lock)
    requires c in s.clients && s.clients[c].ClearPut? && s.clients[c].l == l
    requires l in s.locks && LockInv(s, l) && ClientInv(s, c, s.clients[c])
    requires s' == Goto(s.(put := s.put + {s.clients[c].q},
                           locks := s.locks[l := s.locks[l].(served := s.locks[l].served + 1)]), c, Idle)
    ensures LockInv(s', l)
  {
    var x, x' := s.locks[l], s'.locks[l];
    assert Busy(s, x);
    assert x'.served < |x'.clients| ==> x.clients[x'.served] != c && !Granted(s.clients[x.clients[x'.served]]);
    assert !Busy(s', x');
  }

  lemma RunTouches(s: State, c: Client, made: Promise)
    requires Enabled(s, Run(c, made)) && Ready(s, c, s.clients[c].l)
    ensures Touches(s, RunClient(s, c, made), c, s.clients[c].l)
  {
    match s.clients[c] {
      case SetBody(_) => EnqueueTouches(s, c, made);
      case SetWait(_, _, _, _) => GrantTouches(s, c, made);
      case SetCheck(_, _, _) => LiveChecksTouch(s, c, made);
      case ClearRead(_, _) => LiveChecksTouch(s, c, made);
      case SetLive(_, _, _) => HolderTouches(s, c, made);
      case ClearNull(_, _, _) => HolderTouches(s, c, made);
      case ClearWait(_, _) => HolderTouches(s, c, made);
      case ClearPut(_, _, _) => ClearPutTouches(s, c, made);
      case _ => MutexTouches(s, c, made);
    }
  }

  lemma InvStep(s: State, a: Action)
    requires Inv(s) && Enabled(s, a)
    ensures Inv(Step(s, a))
  {
    var l := if a.CallSet? then a.l else s.clients[a.c].l;
    assert ClientInv(s, a.c, s.clients[a.c]);
    assert Ready(s, a.c, l);
    if a.Run? {
      RunTouches(s, a.c, a.made);
    } else {
      CallTouches(s, a, l);
    }
    InvTouches(s, Step(s, a), a.c, l);
  }

  // ---------------------------------------------------------------------
  // Results about whole runs
  // ---------------------------------------------------------------------

  /** The `i`-th action leads from the `i`-th state to the next. */
  predicate StepAt(states: seq<State>, actions: seq<Action>, i: nat)
    requires i < |actions| && |states| == |actions| + 1
  {
    Enabled(states[i], actions[i]) && states[i + 1] == Step(states[i], actions[i])
  }

  ghost predicate IsRun(states: seq<State>, actions: seq<Action>) {
    && |states| == |actions| + 1
    && Init(states[0])
    && forall i :: 0 <= i < |actions| ==> StepAt(states, actions, i)
  }

  lemma RunsKeepInv(states: seq<State>, actions: seq<Action>, i: nat)
    requires IsRun(states, actions) && i < |states|
    ensures Inv(states[i])
  {
    for n := 0 to i
      invariant Inv(states[n])
    {
      assert StepAt(states, actions, n);
      InvStep(states[n], actions[n]);
    }
  }

  /** At most one client is past the grant of a lock and has not put its promise. */
  lemma MutualExclusion(states: seq<State>, actions: seq<Action>, i: nat, c: Client, d: Client)
    requires IsRun(states, actions) && i < |states|
    requires c in states[i].clients && d in states[i].clients
    requires Granted(states[i].clients[c]) && Granted(states[i].clients[d])
    requires states[i].clients[c].l == states[i].clients[d].l
    ensures c == d
  {
    RunsKeepInv(states, actions, i);
    var s := states[i];
    assert ClientInv(s, c, s.clients[c]) && ClientInv(s, d, s.clients[d]);
  }

  /** Locks are granted in the order in which the setters went through the mutex. */
  lemma GrantedInMutexOrder(states: seq<State>, actions: seq<Action>, i: nat, l: Lock)
    requires IsRun(states, actions) && i < |states| && l in states[i].locks
    ensures states[i].locks[l].granted <= states[i].locks[l].queue
  {
    RunsKeepInv(states, actions, i);
    GrantedIsPrefix(states[i], l);
  }

  lemma GrantedIsPrefix(s: State, l: Lock)
    requires l in s.locks && LockInv(s, l)
    ensures s.locks[l].granted <= s.locks[l].queue
  {
  }

  /** No assertion fails: `live` is NULL at the check in set and not NULL at the check in clear. */
  lemma AssertionsHold(states: seq<State>, actions: seq<Action>, i: nat)
    requires IsRun(states, actions) && i < |states|
    ensures !states[i].aborted
    ensures forall c <- states[i].clients ::
              var s, pc := states[i], states[i].clients[c];
              && (pc.SetCheck? || pc.SetLive? ==> pc.l in s.locks && s.locks[pc.l].live == None)
              && (pc.ClearRead? ==> pc.l in s.locks && s.locks[pc.l].live.Some?)
  {
    RunsKeepInv(states, actions, i);
    var s := states[i];
    forall c <- s.clients
      ensures var pc := s.clients[c];
              && (pc.SetCheck? || pc.SetLive? ==> pc.l in s.locks && s.locks[pc.l].live == None)
              && (pc.ClearRead? ==> pc.l in s.locks && s.locks[pc.l].live.Some?)
    {
      assert ClientInv(s, c, s.clients[c]);
      if HasTicket(s.clients[c]) {
        assert LockInv(s, s.clients[c].l);
      }
    }
  }

  /** The library's lock is taken only when no client of this node has it, and given back only when one does. */
  lemma NodeCallsAlternate(states: seq<State>, actions: seq<Action>, i: nat, c: Client)
    requires IsRun(states, actions) && i < |actions| && actions[i].Run? && actions[i].c == c
    requires c in states[i].clients
    ensures var s, pc := states[i], states[i].clients[c];
            && (pc.SetWait? ==> pc.l !in s.nodeHolds)
            && (pc.ClearWait? ==> pc.l in s.nodeHolds)
  {
    RunsKeepInv(states, actions, i);
    assert StepAt(states, actions, i);
    NodeCallStep(states[i], c, actions[i].made);
  }

  lemma NodeCallStep(s: State, c: Client, made: Promise)
    requires Inv(s) && Enabled(s, Run(c, made))
    ensures var pc := s.clients[c];
            && (pc.SetWait? ==> pc.l !in s.nodeHolds)
            && (pc.ClearWait? ==> pc.l in s.nodeHolds)
  {
    assert ClientInv(s, c, s.clients[c]);
    if s.clients[c].SetWait? {
      assert LockInv(s, s.clients[c].l);
      PredecessorPutMeansServed(s, c);
    } else if s.clients[c].ClearWait? {
      assert LockInv(s, s.clients[c].l);
    }
  }

  // ---------------------------------------------------------------------
  // The hand-off goes on
  // ---------------------------------------------------------------------

  /** The client first in line that has not been granted the lock has nothing to wait for but the mutex it holds. */
  lemma FrontCanGoOn(s: State, l: Lock)
    requires l in s.locks && LockInv(s, l) && s.locks[l].served < |s.locks[l].queue|
    requires forall c <- s.clients :: ClientInv(s, c, s.clients[c])
    requires !Busy(s, s.locks[l])
    ensures var x := s.locks[l];
            var c := x.clients[x.served];
            && c in s.clients && !Granted(s.clients[c])
            && (s.clients[c].SetUnlock? || s.clients[c].SetWait?)
            && s.clients[c].l == l && s.clients[c].k == x.served
            && (s.clients[c].after.Some? ==> s.clients[c].after.value in s.put)
  {
    var x := s.locks[l];
    var k := x.served;
    var c := x.clients[k];
    assert HasTicket(s.clients[c]) && ClientInv(s, c, s.clients[c]);
    if k > 0 {
      assert s.clients[c].after == Some(x.queue[k - 1]);
    }
  }

  /**
    No hand-off is lost: while setters are queued on a lock that nobody has been
    granted, the first in line has passed the mutex or is about to leave it, the
    promise it awaits has been put, and its next step is enabled.
   */
  lemma QueuedFrontIsReady(states: seq<State>, actions: seq<Action>, i: nat, l: Lock)
    requires IsRun(states, actions) && i < |states| && l in states[i].locks
    requires forall c <- states[i].clients :: Granted(states[i].clients[c]) ==> states[i].clients[c].l != l
    requires states[i].locks[l].granted != states[i].locks[l].queue
    ensures var s, x := states[i], states[i].locks[l];
            exists c <- s.clients ::
              && (s.clients[c].SetUnlock? || s.clients[c].SetWait?)
              && s.clients[c].l == l && s.clients[c].k == |x.granted|
              && (s.clients[c].after.Some? ==> s.clients[c].after.value in s.put)
              && forall made :: Enabled(s, Run(c, made))
  {
    RunsKeepInv(states, actions, i);
    var s := states[i];
    FrontIsReady(s, l);
  }

  lemma FrontIsReady(s: State, l: Lock)
    requires Inv(s) && l in s.locks
    requires forall c <- s.clients :: Granted(s.clients[c]) ==> s.clients[c].l != l
    requires s.locks[l].granted != s.locks[l].queue
    ensures exists c <- s.clients ::
              && (s.clients[c].SetUnlock? || s.clients[c].SetWait?)
              && s.clients[c].l == l && s.clients[c].k == |s.locks[l].granted|
              && (s.clients[c].after.Some? ==> s.clients[c].after.value in s.put)
              && forall made :: Enabled(s, Run(c, made))
  {
    var x := s.locks[l];
    assert LockInv(s, l) && !Busy(s, x);
    FrontCanGoOn(s, l);
    assert forall made :: Enabled(s, Run(x.clients[x.served], made));
  }
}
