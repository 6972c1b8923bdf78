# HClib: verified models of the runtime's core

HClib is a work-stealing async/finish runtime.  This project models the parts of it
whose correctness depends on interleavings or on non-trivial invariants, and proves
what they promise.

The lock-free protocols are machines of atomic steps: a shared state, a program
counter per thread, and every atomic read, write or compare-and-swap as one step.
The results hold in every state of every run, for any number of threads, tasks,
promises, scopes, operations, clients and locks.  The sequential algorithms are
methods with loops, arrays and linked nodes, proved against functions on values,
about which the laws are then proved.

| file | part of the system |
|---|---|
| `Deque.dfy`, `DequeCalls.dfy` | the work-stealing deque: one owner, any number of thieves; what its calls amount to |
| `Promise.dfy`, `PromiseCalls.dfy`, `PromiseProgress.dfy` | promise wait lists, registration, put, and the spawn path; what callers get; that calls end |
| `Finish.dfy`, `FinishBarrier.dfy`, `FinishCalls.dfy` | finish scopes, what the end of a finish waits for, and both ends from call to return |
| `Pending.dfy`, `PendingFront.dfy`, `PendingCalls.dfy` | the pending-operation list of the communication modules, and when its assertion fails |
| `ShmemLock.dfy`, `ShmemCalls.dfy` | the on-node OpenSHMEM lock hand-off |
| `MemoryTree.dfy`, `MemoryTreeNodes.dfy` | the balanced tree of memory ranges: values, and linked nodes updated in place |
| `Jsmn.dfy`, `JsmnTokens.dfy`, `JsmnText.dfy`, `JsmnReading.dfy`, `JsmnSuperior.dfy`, `JsmnParser.dfy` | the JSON tokenizer: what both passes compute, how tokens nest, what they are in the text, and the parser |
| `LocalitySearch.dfy`, `StealSweep.dfy` | the search for the closest locale, and the order of steal attempts |
| `LoopTiling.dfy`, `LoopChunks.dfy`, `LoopTasks.dfy` | parallel loops: recursive and flat tiling against the sequential loops |
| `Common.dfy`, `Arithmetic.dfy` | an option type; facts about remainders |

`dafny verify dfyconfig.toml` checks everything.

Where the code and its comments differ the model follows the code:

- `hc_cas` returns the old value, not a flag as its comment says (src/inc/hclib-atomics.h:62-68).
- `success` in `deque_steal` is unset when the first compare-and-swap fails
  (src/hclib-deque.c:85); the model lets the thief either retry or return.
- The search for the closest locale returns the first one in queue order, not a random
  one (src/hclib-locality-graph.c:1133-1164).
- The comment in `poll_on_pending` says that a failed swap means the new head points to
  the operation being removed (modules/common/hclib-module-common.h:30-40).  That is
  false when two operations have been added; the assertion then fails.  The model shows
  such a run and proves that the assertion fails exactly when two or more were added.

Properties that turned out not to hold for every input are stated with the exact
condition under which they do: the assertion just mentioned, the search on graphs that
are not connected, recursive tiling with a stride above one, flat tiling with tiles that are not made of whole strides, and
one-dimensional flat tiling from an unaligned start.

## Model

| member | source | states |
|---|---|---|
| `Deque.RefinesDoubleEndedQueue` | src/hclib-deque.c:50-139 | in every state of every run the calls that took effect are a legal history of a double-ended queue (pops take the newest task, steals the oldest) whose content is what is live; pops and steals returned what that history says; live tasks fit the ring |
| `DequeCalls.PushedIsReturnedPlusLive` | src/hclib-deque.c:50-139 | the arguments of the accepted calls of push are exactly what was popped, what was stolen, what a pop in flight has taken and what is live, as multisets: none lost, none returned twice |
| `DequeCalls.PushCallPushesItsArgument` | src/hclib-deque.c:50-64 | a call of push that has returned has taken effect once, as a push of its argument, or not at all; the latter exactly if the ring was full when the owner looked |
| `DequeCalls.PopCallPopsOnce` | src/hclib-deque.c:111-139 | a call of pop that has returned has taken effect exactly once, as a pop of what it returned |
| `DequeCalls.StealEndsTheCall` | src/hclib-deque.c:75-106 | tasks are stolen one at a time, and the step that steals ends the call with that task |
| `DequeCalls.OwnerIsWaitFree` | src/hclib-deque.c:50-139 | push and pop end within six steps of the owner whatever the thieves do |
| `DequeCalls.ThiefIsLockFree` | src/hclib-deque.c:75-106 | each step of a thief brings its call nearer to its end unless another swap has moved the head |
| `Deque.LoggedIsReturnedPlusLive` | src/hclib-deque.c:50-139 | the same balance for the pushes of the history |
| `Deque.LegalHistoriesConserve` | src/hclib-deque.c:50-139 | every legal queue history conserves tasks |
| `Deque.EventConserves` | src/hclib-deque.c:50-139 | one queue operation adds or removes exactly its task |
| `Deque.NullPopSeesEmpty` | src/hclib-deque.c:111-139 | a pop returns NULL only while the abstract queue of the history so far is empty |
| `Deque.EmptyStealSeesAtMostAPop` | src/hclib-deque.c:84-93 | a thief that gives up because the deque looked empty does so with at most one task live, and the owner competing for it |
| `Deque.LostSwapMeansHeadMoved` | src/hclib-deque.c:94-102 | a thief whose swap fails, whether it retries or gives up, had read a head in this call that has moved on since |
| `Deque.HeadWasRead` | src/hclib-deque.c:86-98 | the head a thief acts on is the one it read earlier in the same call |
| `Deque.PushRefusedIffFull` | src/hclib-deque.c:50-64 | a push is refused if and only if the ring is full when the owner looks |
| `Deque.SlotsDiffer` | src/hclib-deque.c:56-57 | two live indices never share a ring slot |
| `Deque.PushWriteKeepsLive` | src/hclib-deque.c:56-57 | the slot a push overwrites belongs to no live task |
| `Deque.OwnerKeepsProtocol` | src/hclib-deque.c:50-139 | what each thread knows of head, tail and slots survives every owner step, including a thief's stale read of a reused slot |
| `Deque.ThiefKeepsProtocol` | src/hclib-deque.c:75-106 | the same for every thief step |
| `Deque.OwnerActsOnLive` | src/hclib-deque.c:50-139 | an owner step performs exactly the operation it logs on the live tasks, also where it takes a task without a compare-and-swap |
| `Deque.ThiefActsOnLive` | src/hclib-deque.c:75-106 | a successful swap removes the oldest live task and returns that task; every other thief step changes nothing |
| `Deque.InvStep` | src/hclib-deque.c:50-139 | every step of owner or thieves keeps the invariant |
| `Deque.RunsKeepInv` | src/hclib-deque.c:50-139 | the invariant holds in every state of every run |
| `PromiseCalls.ScheduledOnceAndReady` | src/hclib-runtime.c:540-617 | a task spawned with a list of futures is scheduled at most once, and only when each future of that list is satisfied by a put that was called |
| `PromiseCalls.NoLostWakeup` | src/hclib-promise.c:132-245 | a spawned task that no thread has in hand is scheduled if and only if all futures given to the spawn have been closed by their puts; otherwise it waits on the list of the first that has not |
| `PromiseCalls.AtRestReadyMeansScheduled` | src/hclib-promise.c:203-245 | when no call is in progress, a task has been scheduled if and only if a put has been called on each future given to its spawn |
| `PromiseCalls.ExtraCallIsMade` | src/hclib-promise.c:239-241 | a put schedules a task only at the end of the extra call of `try_schedule_async`, which finds the cursor at the end of the list |
| `PromiseCalls.FuturesAreThoseSpawned` | src/hclib-runtime.c:572-617 | the futures a task awaits are those given to its spawn, overflow included, for ever after |
| `PromiseCalls.TasksAreSpawned` | src/hclib-runtime.c:572-617 | every task comes from a spawn |
| `PromiseCalls.PutsAreThoseCalled` | src/hclib-promise.c:203-220 | the puts on record are those that were called |
| `PromiseProgress.RunsAloneToTheEnd` | src/hclib-promise.c:132-245 | from every reachable state a thread that runs while the others stand still finishes its call, walks of detached chains included |
| `PromiseProgress.StepsSink` | src/hclib-promise.c:132-245 | each step of a spawn or put brings the call nearer to its end unless another thread has moved a head it had read |
| `PromiseWaitLists.ReturnedPutHasClosed` | src/hclib-promise.c:203-220 | a put that has been called has closed and satisfied its promise if and only if its thread is past the swap, in particular if it has returned: no close is lost |
| `PromiseWaitLists.ClosedOnlyByPut` | src/hclib-promise.c:203-220 | no promise is closed without a put |
| `PromiseWaitLists.ExactlyOnePlace` | src/hclib-promise.c:143-162 | every task is held by one registering thread, on one wait list, on one detached chain or scheduled, and never in two of these; open lists are what the next links spell out |
| `PromiseWaitLists.PutVisitsEachDetachedTaskOnce` | src/hclib-promise.c:203-245 | a put visits the tasks it detached in order, each once, and all of them by its end, although re-registration overwrites their links |
| `PromiseCalls.CursorVisitsInOrderOnce` | src/hclib-promise.c:171-195 | over all suspended and resumed calls the cursor visits the futures given to the spawn in order, each once; the extra call of `try_schedule_async` registers nothing |
| `PromiseWaitLists.ScanFollowsTheList` | src/hclib-promise.c:171-195 | the split inline and extra arrays are read in bounds and yield exactly the next future of the list |
| `PromiseWaitLists.AdvancedKeeps` | src/hclib-promise.c:171-195 | one advance of the cursor keeps its invariant |
| `PromiseWaitLists.ThreadsNeverStuck` | src/hclib-promise.c:132-245 | no thread ever follows NULL, the sentinel or a stale link |
| `PromiseWaitLists.InvStep` | src/hclib-promise.c:132-245 | every step of registering and putting threads keeps the invariant |
| `PromiseWaitLists.RunsKeepInv` | src/hclib-promise.c:132-245 | the invariant holds in every state of every run |
| `FinishCalls.EndFinishAwaitsDescendants` | src/hclib-runtime.c:1249-1277 | from the call of `hclib_end_finish` on a scope to its return: every task that descends to any depth through plain spawns from code inside the scope is registered within it, and has completed if no finish in between was closed by a call of the non-blocking end |
| `FinishCalls.NbMeansClosedNonblocking` | src/hclib-runtime.c:1280-1300 | a scope is closed the non-blocking way exactly if that end was called on it |
| `FinishCalls.EndStaysUntilReturn` | src/hclib-runtime.c:1249-1277 | from call to return the task helps, leaves and restores the parent scope, and nobody else closes its scope |
| `FinishCalls.HelpLeavesAtOne` | src/hclib-runtime.c:1075-1089 | the helping loop is left exactly when the counter is seen at one, and changes nothing before |
| `FinishCalls.CompletedMeansRan` | src/hclib-runtime.c:448-478 | a completed task was taken from the queue and its code has returned |
| `FinishCalls.SpawnRegistersAsAsked` | src/hclib-runtime.c:572-617 | a plain spawn queues the task registered on its parent's current scope, an escaping one registered on none |
| `FinishCalls.NonblockingEndChecksOut` | src/hclib-runtime.c:1280-1300 | when the non-blocking end returns, `finish_dep` is set, the body has checked out of the scope and the scope out of its parent |
| `FinishCalls.ClosedScopeIsPut` | src/hclib-runtime.c:437-446 | the promise of a scope whose body has left is put exactly when its last task and child finish have checked out |
| `FinishCalls.RuntimeStepsSink` | src/hclib-runtime.c:1067-1119 | each step of the runtime brings its call nearer to the end, except for the wait until the counter is one |
| `FinishBarrier.ReturnAwaitsDescendants` | src/hclib-runtime.c:1249-1277 | the same at the step that returns, for scopes on whose paths no non-blocking close is marked |
| `FinishBarrier.DescendantsWithin` | src/hclib-runtime.c:572-617 | every such descendant is registered on a scope nested within the scope |
| `FinishBarrier.SpawnedWithin` | src/hclib-runtime.c:572-617 | a spawn from code inside a scope, or by a task registered within it, registers the new task within it |
| `FinishBarrier.SpawnedLater` | src/hclib-runtime.c:448-478 | the spawns along a line of descent happen in order |
| `FinishBarrier.RunLasts` | src/hclib-runtime.c:1219-1247 | scopes never change parents and tasks never change the scope they are registered on |
| `FinishScopes.EndFinishIsABarrier` | src/hclib-runtime.c:1249-1277 | when a blocking end returns, every task registered on the scope or on a scope nested in it through blocking finishes has completed |
| `FinishScopes.CounterIsTokens` | src/hclib-runtime.c:431-446 | a counter is its body token plus the live registered tasks plus the open child finishes |
| `FinishScopes.NeverIncrementedFromZero` | src/hclib-runtime.c:431-446 | no counter is incremented from zero, and zero is final |
| `FinishScopes.PutOnceAndOnlyWhenDone` | src/hclib-runtime.c:437-446 | a finish promise is put at most once, only with `finish_dep` set and everything registered on the scope done |
| `FinishScopes.SpawnsStayInside` | src/hclib-runtime.c:572-617 | a plain spawn registers the task on the innermost scope around its parent's code, which lies inside the parent's own scope |
| `FinishScopes.CurrentFinishIsRestored` | src/hclib-runtime.c:448-478 | whatever a worker ran in between, at the end of a finish, in a wait for a future or in a yield, user code sees the innermost scope it opened as current finish |
| `FinishScopes.ResumeTouches` | src/hclib-runtime.c:982-1024 | the end of a wait or a yield restores the saved current finish and leaves everything else in order |
| `FinishScopes.RuntimeStepsAreDefined` | src/hclib-runtime.c:1280-1300 | the runtime's next step is always possible: no finish pointer it follows is missing |
| `FinishScopes.ChildDrained` | src/hclib-runtime.c:1067-1119 | a drained scope has only drained blocking children |
| `FinishScopes.NestedDrained` | src/hclib-runtime.c:1067-1119 | so have all scopes nested in it through blocking finishes |
| `FinishScopes.CurrentIsAlive` | src/hclib-runtime.c:431-436 | the scope a running task checks in with has a token left |
| `FinishScopes.InvStep` | src/hclib-runtime.c:431-478 | every step keeps the invariant of scopes, tasks and workers |
| `FinishScopes.RunsKeepInv` | src/hclib-runtime.c:1219-1300 | the invariant holds in every state of every run |
| `PendingCalls.AppendedOperationsAreConserved` | modules/common/hclib-module-common.h:10-115 | every operation for which append was called is with its caller until the swap, and then reachable from the head, with the poller that unlinked it, or released, and released once |
| `PendingCalls.OperationsAreThoseAppended` | modules/common/hclib-module-common.h:92-107 | the operations that exist are those for which append was called |
| `PendingCalls.ReleasedWasComplete` | modules/common/hclib-module-common.h:25-75 | an operation is released only after the callback has said that it is complete |
| `PendingCalls.IncompleteIsKept` | modules/common/hclib-module-common.h:25-80 | one said to be incomplete stays on the list and the poller goes on to the next, or to a new round |
| `PendingCalls.CompleteIsUnlinked` | modules/common/hclib-module-common.h:25-64 | one said to be complete is unlinked before the poller does anything else, unless the assertion on line 45 fails |
| `PendingCalls.StepsSink` | modules/common/hclib-module-common.h:10-107 | every append, and every round of a poller, ends unless other threads keep moving the head |
| `PendingList.OperationsAreConserved` | modules/common/hclib-module-common.h:10-115 | every operation is with an appender, on the list, with the poller that unlinked it, or released, in exactly one of these |
| `PendingList.ExactlyOnePollerWhileNonEmpty` | modules/common/hclib-module-common.h:83-114 | a non-empty list has exactly one poller, started, spawned or about to be; an empty one has none |
| `PendingList.OnlyTheFrontAssertionCanFail` | modules/common/hclib-module-common.h:20-62 | the assertions on lines 20 and 62 never fail |
| `PendingFront.FailsIffTwoAppends` | modules/common/hclib-module-common.h:41-47 | the assertion on line 45 fails if and only if two or more operations were appended between the last state in which the operation being removed was at the front and the failed swap; with one it never fails |
| `PendingFront.FailsIffTwoInFront` | modules/common/hclib-module-common.h:41-47 | equivalently, if and only if at the failed swap at least two operations stand in front of the one being removed |
| `PendingFront.OvertakenByAppends` | modules/common/hclib-module-common.h:17-47 | the operation a poller tries to take from the head was at the front when the poller came to it, and what is in front of it since is exactly what was appended since |
| `PendingFront.OthersOnlyAppend` | modules/common/hclib-module-common.h:92-107 | while one thread polls the others change the list only by appending |
| `PendingList.FrontAssertionCanFail` | modules/common/hclib-module-common.h:41-47 | a run of two appends between test and swap that fails the assertion on line 45 |
| `PendingList.ThreadsNeverStuck` | modules/common/hclib-module-common.h:10-115 | no thread dereferences an operation that has been freed |
| `PendingList.ChainPush` | modules/common/hclib-module-common.h:96-107 | linking in front extends the list by one |
| `PendingList.ChainPop` | modules/common/hclib-module-common.h:41-56 | swapping the head for the next removes exactly the first operation |
| `PendingList.ChainCut` | modules/common/hclib-module-common.h:57-64 | redirecting a link removes exactly the operation behind it |
| `PendingList.InvStep` | modules/common/hclib-module-common.h:10-115 | every step of appenders and pollers keeps the invariant |
| `PendingList.RunsKeepInv` | modules/common/hclib-module-common.h:10-115 | the invariant holds in every state of every run |
| `ShmemCalls.AtMostOneHolds` | modules/openshmem/src/hclib_openshmem.cpp:383-438 | of the clients that have called set on a lock and not finished clearing it at most one is between grant and hand-off |
| `ShmemCalls.LockIsTheOneAskedFor` | modules/openshmem/src/hclib_openshmem.cpp:383-438 | from set to the end of clear a client deals with the lock it asked for |
| `ShmemCalls.SetReturnsHolding` | modules/openshmem/src/hclib_openshmem.cpp:409-417 | set returns only with the lock granted, its own promise in `live` and the library's lock taken |
| `ShmemCalls.ClearHandsOn` | modules/openshmem/src/hclib_openshmem.cpp:420-438 | clear ends by putting its client's own promise, which serves the next in line, with the library's lock given back |
| `ShmemCalls.StepsSink` | modules/openshmem/src/hclib_openshmem.cpp:383-438 | each step brings a call nearer to its end; a call only ever waits for the mutex or its predecessor |
| `ShmemLock.MutualExclusion` | modules/openshmem/src/hclib_openshmem.cpp:383-438 | at most one client per lock is between grant and hand-off |
| `ShmemLock.GrantedInMutexOrder` | modules/openshmem/src/hclib_openshmem.cpp:383-418 | locks are granted in the order in which setters went through the mutex |
| `ShmemLock.AssertionsHold` | modules/openshmem/src/hclib_openshmem.cpp:415-436 | `live` is NULL at the check in set and not NULL at the check in clear; no assertion fails |
| `ShmemLock.NodeCallsAlternate` | modules/openshmem/src/hclib_openshmem.cpp:361-381 | the library's lock is requested only when no client of the node has it and given back only when one has |
| `ShmemLock.QueuedFrontIsReady` | modules/openshmem/src/hclib_openshmem.cpp:383-417 | while setters are queued on a lock that nobody has been granted, the first in line is past the mutex or about to leave it, the promise it awaits has been put and its next step is enabled: no hand-off is lost |
| `ShmemLock.PredecessorPutMeansServed` | modules/openshmem/src/hclib_openshmem.cpp:407-409 | a setter whose predecessor's promise has been put is the next in line |
| `ShmemLock.InvStep` | modules/openshmem/src/hclib_openshmem.cpp:383-438 | every step keeps the invariant |
| `ShmemLock.RunsKeepInv` | modules/openshmem/src/hclib_openshmem.cpp:383-438 | the invariant holds in every state of every run |
| `MemoryTree.BuiltTreesAreSound` | src/hclib-tree.c:52-120 | in a tree built by inserting non-empty disjoint ranges lookup succeeds if and only if some range holds the address, and a tree of height h has at least Fib(h + 2) - 1 nodes |
| `MemoryTree.BuildKeepsTheRanges` | src/hclib-tree.c:98-120 | inserting such ranges trips no assertion and keeps exactly them, in search order |
| `MemoryTree.InsertAdds` | src/hclib-tree.c:98-120 | one insertion adds exactly the one range and keeps the search order |
| `MemoryTree.DisjointIsClear` | src/hclib-tree.c:111-112 | a range disjoint from those present passes the assertion at every node on its way |
| `MemoryTree.Insert` | src/hclib-tree.c:98-120 | insertion keeps sibling stored heights within one and raises the stored height by one at most |
| `MemoryTree.AdjustRestoresBalance` | src/hclib-tree.c:66-77 | rebalancing a node whose sides differ by two restores the stored heights |
| `MemoryTree.SingleRotation` | src/hclib-tree.c:52-77 | the single rotation case |
| `MemoryTree.DoubleRotation` | src/hclib-tree.c:52-77 | the double rotation case; the lifted grandchild exists |
| `MemoryTree.TiltedHasGrandchild` | src/hclib-tree.c:66-77 | neither rotation meets a missing child |
| `MemoryTree.RotateKeepsRanges` | src/hclib-tree.c:52-64 | a rotation keeps the in-order sequence of ranges |
| `MemoryTree.AdjustKeepsRanges` | src/hclib-tree.c:66-77 | so does rebalancing |
| `MemoryTree.FindIsExact` | src/hclib-tree.c:80-96 | in search order lookup returns the range holding the address if and only if there is one |
| `MemoryTree.StoredHeightIsClose` | src/hclib-tree.c:13-26 | the true height is the stored one or one more, because fresh leaves store -1 |
| `MemoryTree.StoredHeightNeedsNodes` | src/hclib-tree.c:13-50 | the least number of nodes for a stored height |
| `MemoryTree.HeightIsLogarithmic` | src/hclib-tree.c:13-120 | the least number of nodes for a true height is a Fibonacci number less one |
| `MemoryTree.Build` | src/hclib-tree.c:98-120 | every tree built by insertion that passes the assertions is balanced |
| `MemoryTreeNodes.Rotate` | src/hclib-tree.c:52-64 | on linked nodes: the same nodes, without sharing, hold the rotated tree |
| `MemoryTreeNodes.AdjustBalance` | src/hclib-tree.c:66-77 | on linked nodes: the same nodes hold the rebalanced tree |
| `MemoryTreeNodes.Insert` | src/hclib-tree.c:98-120 | on linked nodes: the old nodes and fresh ones hold the tree after insertion; nothing else changes |
| `MemoryTreeNodes.Find` | src/hclib-tree.c:80-96 | on linked nodes: NULL if and only if lookup on the value fails, otherwise a node of the tree with that range |
| `MemoryTreeNodes.TreeNode.constructor` | src/hclib-tree.c:13-26 | a fresh leaf stores height -1 |
| `MemoryTreeNodes.TreeNode.SetHeight` | src/hclib-tree.c:44-46 | one more than the larger stored height below |
| `JsmnParser.CountThenFill` | src/hclib-locality-graph.c:398-408 | counting and then filling as many tokens: the second pass never lacks tokens, succeeds if and only if brackets match, and leaves exactly that many tokens, properly nested, sized by the values they have in the text, and accounting for every character; failures are where the text is invalid or breaks off |
| `JsmnReading.ParsedTokensCoverTheText` | src/jsmn/jsmn.c:35-303 | every character up to the end is a blank, a colon, a comma, a bracket of a container, or part of a string with its quotes or of a primitive; strings end at the first quote that no escape sequence covers; primitives are printable characters up to the first delimiter or the end |
| `JsmnReading.StopsExactlyWhere` | src/jsmn/jsmn.c:42-56 | the invalid error is returned exactly at a primitive with a stray character, a string with a bad escape or an unmatched closing bracket; the partial error exactly where the text breaks off in a string or with a container open |
| `JsmnText.ScanStringMeans` | src/jsmn/jsmn.c:84-146 | a string ends at the one quote that whole characters and escapes, the eight letters or u with four hexadecimal digits, lead up to; bad escapes and breaks are told apart |
| `JsmnText.StringEndIsUnique` | src/jsmn/jsmn.c:84-146 | a text can be read as a string in one way only |
| `JsmnText.ScanPrimitiveMeans` | src/jsmn/jsmn.c:35-79 | a primitive ends at the first of tab, CR, LF, space, colon, comma and closing brackets, or at the end of the text |
| `JsmnText.ScanHexMeans` | src/jsmn/jsmn.c:123-136 | four hexadecimal digits, fewer only at the end of the text |
| `JsmnReading.LexFaults` | src/jsmn/jsmn.c:35-146 | which characters make a string or a primitive invalid or partial |
| `JsmnSuperior.SizesCountTheValues` | src/jsmn/jsmn.c:172-281 | each token counts exactly the tokens whose superior it is in the text: the token before the last colon, until a comma ends that, otherwise the innermost open container |
| `JsmnSuperior.CommaStep` | src/jsmn/jsmn.c:243-260 | a comma ends the value of a key: the superior is again the innermost open container |
| `JsmnParser.Parser.Parse` | src/jsmn/jsmn.c:151-303 | for every text and parser state the loop ends with the code, position, tokens and superior of the specified run; without tokens with the specified count |
| `JsmnParser.Parser.FillOne` | src/jsmn/jsmn.c:158-291 | one turn of the loop in the filling pass |
| `JsmnParser.Parser.CountOne` | src/jsmn/jsmn.c:158-291 | one turn of the loop in the counting pass |
| `JsmnParser.Parser.ParseString` | src/jsmn/jsmn.c:84-146 | strings with their escapes; every failure restores the position |
| `JsmnParser.Parser.SkipEscape` | src/jsmn/jsmn.c:114-142 | escape sequences, with up to four hexadecimal digits after u |
| `JsmnParser.Parser.ParsePrimitive` | src/jsmn/jsmn.c:35-79 | primitives, their end and their invalid characters; every failure restores the position |
| `JsmnParser.Parser.Alloc` | src/jsmn/jsmn.c:6-19 | the next free token, or none and nothing changed |
| `JsmnParser.Parser.OpenBracket` | src/jsmn/jsmn.c:164-181 | a new pending container below its superior |
| `JsmnParser.Parser.CloseBracket` | src/jsmn/jsmn.c:182-230 | the backward search closes the innermost pending container if its kind matches, and the next one out becomes the superior |
| `JsmnParser.Parser.BackScan` | src/jsmn/jsmn.c:209-228 | the backward search finds the innermost pending container |
| `JsmnParser.Parser.NextValue` | src/jsmn/jsmn.c:243-260 | a comma after a key's value makes the innermost pending container the superior |
| `JsmnParser.Parser.constructor` | src/jsmn/jsmn.c:309-313 | the initial parser |
| `JsmnTokens.ParsedTokensAreNested` | src/jsmn/jsmn.c:151-303 | after success starts increase strictly, any two tokens are disjoint or the earlier is a container around the later, containers are closed by brackets of their own kind, sizes sum to the number of tokens that had a superior, and that superior is the innermost container around the token or a token before it |
| `JsmnTokens.RunKeepsParents` | src/jsmn/jsmn.c:172-260 | at every point the superior is the innermost open container or a token that has ended, and there is none only when no container is open |
| `JsmnTokens.TwoPassesAgree` | src/jsmn/jsmn.c:35-303 | if counting returns n, filling n tokens never returns the no-memory error, and succeeds, with n, if and only if brackets match |
| `JsmnTokens.RunMatchesAStack` | src/jsmn/jsmn.c:182-230 | searching tokens backwards gives the same outcome on every text as a stack of brackets |
| `JsmnTokens.RunKeepsInv` | src/jsmn/jsmn.c:151-303 | nesting and sizes are kept from every state in order to the end of every run |
| `JsmnTokens.RunStops` | src/jsmn/jsmn.c:293-302 | success is reported at the end of the text, with nothing open and the number of tokens |
| `JsmnTokens.SizesAddUp` | src/jsmn/jsmn.c:172-236 | sizes sum to the number of tokens with a superior |
| `JsmnTokens.LastPendingIsTop` | src/jsmn/jsmn.c:209-221 | the last pending token is the top of the bracket stack |
| `JsmnTokens.CloseKeepsLaid` | src/jsmn/jsmn.c:209-219 | closing the last pending container keeps tokens nested |
| `Jsmn.FillingSucceedsIff` | src/jsmn/jsmn.c:151-303 | filling succeeds with n if and only if counting gives n, the tokens suffice and brackets match |
| `Jsmn.CountedIsEnough` | src/jsmn/jsmn.c:151-303 | as many tokens as were counted are enough |
| `Jsmn.CountingGrows` | src/jsmn/jsmn.c:156-302 | the count never falls below what has been counted |
| `LocalitySearch.Closest` | src/hclib-locality-graph.c:1136-1164 | a locale of a requested type at minimum distance, or NULL if and only if no locale has one; the queue at the end is the one the turns of the loop make, and no locale is in it twice |
| `LocalitySearch.DefinedIffSearchable` | src/hclib-locality-graph.c:1146-1148 | the search reads only entries of its queue that it has written if and only if a locale of a requested type, or every locale, can be reached from the start |
| `LocalitySearch.SplitReadsUnwritten` | src/hclib-locality-graph.c:1146-1148 | a disconnected graph on which it reads an entry it has not written |
| `LocalitySearch.UnsearchableRunsDry` | src/hclib-locality-graph.c:1146-1161 | where neither can be reached the queue never holds a wanted locale and never all locales |
| `LocalitySearch.Expand` | src/hclib-locality-graph.c:1153-1160 | the inner loop enqueues exactly the neighbours not met before |
| `LocalitySearch.Contains` | src/hclib-locality-graph.c:1103-1109 | membership in a list |
| `LocalitySearch.WalkIsCovered` | src/hclib-locality-graph.c:1146-1161 | the end of any walk has been met at no greater level than its length, unless the walk passes a locale still waiting |
| `LocalitySearch.FirstIsClosest` | src/hclib-locality-graph.c:1146-1151 | the first locale in the queue of a requested type is at minimum distance |
| `LocalitySearch.StillWaiting` | src/hclib-locality-graph.c:1146-1148 | no entry of the queue is read before it is written |
| `LocalitySearch.GrownIsExpanded` | src/hclib-locality-graph.c:1153-1160 | after the inner loop all neighbours are in the queue one level further at most, and levels stay sorted |
| `LocalitySearch.ConnectedIsSearchable` | src/hclib-locality-graph.c:1136-1164 | on a connected graph the search is defined from every locale |
| `StealSweep.Worker.Steal` | src/hclib-locality-graph.c:843-888 | a call that finds nothing has made exactly the probes of a full sweep and leaves the saved index; one that succeeds stops at the first deque of that sweep that yields tasks and saves its position, which lies in the path; it finds nothing if and only if every deque yields nothing |
| `StealSweep.Worker.ProbeAt` | src/hclib-locality-graph.c:864-884 | the workers of the socket and then the others are one round through all workers |
| `StealSweep.SweepTriesEachOnce` | src/hclib-locality-graph.c:859-885 | a full sweep contains each pair of path position and worker exactly once, and no other pair |
| `StealSweep.SweepOrder` | src/hclib-locality-graph.c:857-885 | it begins at the saved position and wraps round the path; at each position the workers of the socket come first, from base to limit, and then the others from limit on |
| `StealSweep.RoundVisitsOnce` | src/hclib-locality-graph.c:860-877 | a wrapped round from any start visits each number exactly once |
| `LoopTiling.RecursiveIsExactIff` | src/hclib.c:158-314 | in any number of dimensions the recursive scheme runs each tuple of the sequential loops exactly once and no other if and only if every split falls on an index of its loop, or some loop is empty |
| `LoopTiling.RecursiveRunsTheSame` | inc/hclib-forasync.h:184-343 | with stride one and tiles of at least one it runs what the sequential loops run |
| `LoopTiling.RecursiveFromZeroIsExactIff` | src/hclib.c:158-314 | from zero up it is exact if and only if each loop by itself halves evenly, a matter of its length, tile and stride, or some loop is empty |
| `LoopTiling.AlignedIffHalvesEvenly` | src/hclib.c:167-182 | from zero up the alignment of all splits of nested loops reduces to each loop by itself |
| `LoopTiling.RecursiveCanStray` | src/hclib.c:167-168 | a strided loop for which it does not |
| `LoopTiling.LeavesFit` | src/hclib.c:158-314 | every leaf fits the tile size in each dimension |
| `LoopTiling.SplitShrinks` | src/hclib.c:167-182 | a split falls strictly inside the range, so the recursion ends |
| `LoopTiling.TuplesOnce` | inc/hclib-forasync.h:512-555 | the sequential loops run each tuple of the domain exactly once |
| `LoopTiling.TuplesInOrder` | inc/hclib-forasync.h:512-555 | and in increasing order |
| `LoopTiling.ExactRunsTheSame` | inc/hclib-forasync.h:150-181 | tiles cover the domain exactly if and only if they make the same calls as the sequential loops, as multisets |
| `LoopTiling.StrayTuple` | src/hclib.c:167-182 | a split off the grid makes some task run a tuple that the sequential loops skip |
| `LoopChunks.FlatIsExactIff` | src/hclib.c:353-416 | the flat scheme is exact if and only if each tile is made of whole strides or is the only one of its loop, or some loop is empty |
| `LoopChunks.FlatRunsTheSame` | src/hclib.c:353-416 | with tiles that are positive multiples of the strides it runs what the sequential loops run |
| `LoopChunks.FlatCanStray` | src/hclib.c:353-379 | a two-dimensional loop with a tile not made of whole strides for which it does not |
| `LoopChunks.FlatLoopIsExactIff` | src/hclib.c:316-350 | for every range, negative ones included, every stride and every tile the one-dimensional flat scheme is exact if and only if its leftover starts less than a stride past the end or, where the tile is not made of whole strides, there is no full chunk or one that ends the loop without running past it |
| `LoopChunks.UnitFlatLoopIsExactIff` | src/hclib.c:316-350 | with stride one and 0 <= low <= high: if and only if the first chunk start at or past `size` is at most `high` |
| `LoopChunks.AlignedStartIsExact` | src/hclib.c:316-350 | hence whenever low is a multiple of the tile |
| `LoopChunks.MoreChunksStray` | src/hclib.c:322-350 | with such a tile any further chunk runs an index that the sequential loop does not |
| `LoopChunks.TasksLate` | src/hclib.c:322-350 | otherwise a full chunk runs an index past the end |
| `LoopChunks.FlatLoopCanOverrun` | src/hclib.c:322-350 | a loop from 1 to 4 in tiles of 2 runs index 4 |
| `LoopTasks.Forasync.Recursive` | src/hclib.c:158-314 | the method that overwrites its own domain and spawns the other half makes the calls of the specified leaves, and ends |
| `LoopTasks.Run` | src/hclib.c:110-156 | the runners make the calls of the nested loops in order |
| `LoopTasks.Flat1D` | src/hclib.c:316-350 | the tasks spawned by the one-dimensional flat scheme |
| `LoopTasks.Flat2D` | src/hclib.c:353-379 | the tasks spawned by the two-dimensional flat scheme |
| `LoopTasks.Flat3D` | src/hclib.c:381-416 | the tasks spawned by the three-dimensional flat scheme |

## Left out

- Weak memory, signed wrap-around of `head` and `tail`, and deques with several owners: steps are sequentially consistent and the counters unbounded.
- The protocols are machines over immutable states, not classes over shared memory: a step replaces the state, so aliasing between C structures appears only through identifiers.
- Context switching and the migration of a blocked context between workers: the end of a finish is modelled as the draining loop of `help_finish`, whose calls always drain the counter to one (src/hclib-runtime.c:1087), and waits for futures and yields as other tasks running on top of the same stack, where the code runs blocking tasks on a fresh context.
- FinishScopes.ResumeTouches: what a future waits for is not modelled; a wait may end at any time.
- NULL futures between others in a task's list, which the runtime takes not to occur (src/hclib-runtime.c:545), and a second put of the same promise, which fails an assertion (src/hclib-promise.c:206).
- Reuse of the address of a freed pending operation: an operation has an identity of its own.
- The completion callback, the network library and `::shmem_set_lock` are single steps with arbitrary answers; their own correctness is not modelled.
- `hclib_memory_tree_remove`: a fresh leaf stores height -1, so removal can lose a leaf, and it does not keep the invariant proved here.
- MemoryTreeNodes.Rotate: requires the child it lifts; the branch that frees the root of a missing child is reached only from removal.
- JsmnParser.Parser.Parse: models the non-strict build without parent links; positions are unbounded.
- LocalitySearch.Closest: the edge matrix is given by rows instead of one array indexed by `id * n + i`; the method requires that a locale of a requested type, or every locale, can be reached, because elsewhere the code reads an entry it has not set, as `DefinedIffSearchable` proves.
- StealSweep.Worker.Steal: what a deque yields is given by a function of position and worker, since no pair is tried twice in one call.
- LoopTasks.Forasync.Recursive: a spawned task's calls are collected when it is spawned; the order between tasks is not modelled, and the results compare multisets of calls.
- `locale_pop_task`, locale registries, memory dispatch, per-worker atomics, start-up, shutdown, timers, statistics, affinity, the locality file loader, the CUDA, MPI and UPC++ modules and the benchmarks: plumbing, or members that would only add easy claims.
