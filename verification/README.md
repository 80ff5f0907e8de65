# Synchronisation, thread-specific data and argument scanning, verified

This project models the algorithmic core of the bundled pthreads-w32 library and
of the getopt port, and proves what they promise.

**Protocols.** Six protocols are step systems: shared fields as the C structs
have them, one program counter per thread, and one step per interlocked
operation, semaphore or mutex operation, or region run under a lock. Any number
of threads makes any calls, timeouts and cancellations in any order. Invariants
are equations between counters and sums over threads; they are proved of single
steps and lifted to every reachable state (`Threads`). Progress is stated as
`Settles`: with no new calls every run is no longer than a measure, no run stops
before it is quiet, and some run gets there.

- `CondVar`: the condition variable's Algorithm 9 (three counters, gate, queue).
- `McsLock`: the MCS queue lock with its three-state flags and node transfer; it
  refines a first-in first-out queue.
- `NodeReuse`: the interface leaves open whether a node may be used again as soon as
  its release has returned. For a transfer it may, for an acquire exactly if nobody
  is still notifying it; otherwise a release may follow a null pointer, but exclusion
  and order are kept.
- `Barrier`: rounds over the queue lock and a counting semaphore. The lock it
  uses is the one-holder lock that `McsLock` proves, with the proxy node as a
  holder; that the proxy node is used again in every round is `NodeReuse.HolderMayReuse`.
- `RwLock`: the read/write lock over owned mutexes and a condition variable.
- `Mutex`, `Semaphore`: the 0/1/-1 lock word with its event, and the signed value
  beside a kernel semaphore.

Where one region changes several fields, a class with the source's fields
(`CondRecord`, `RwRecord`, `SemRecord`, `BarrierRecord`, `MutexRecord`) runs it in
place and is proved equal to the step of the protocol.

**Thread-specific data.** `KeyGrid` is a heap proof: threads, keys and
associations are objects, each association lies in two doubly linked chains, and
`nextAssoc` walks a chain that destructors and other threads change meanwhile.
What they do is arbitrary: on each trip around the loop other threads run a script,
and a destructor another that depends on its key and value; threads and keys are
named by number, new keys included. `KeyScripts` is the reference on values: the
exiting thread's keys, values and chain, and what a script, a visit, a pass and all
passes make of them; the heap code is proved to do exactly that.

**Argument scanning.** `Getopt` has the in-place block exchange, the scanner
object and its decoding of short and long options, and a reference parser that
reads the arguments once and moves nothing; every call is proved to give the
parser's next answer. `ParserLaws` says what the answer to each kind of argument is,
in the words of the documentation; `ScanResults` proves of the parser what a scan comes to,
`OptionString` what becomes of the option string's flag character. Strings hold
no terminator; `At` gives one behind the last character. `optarg` and `nextchar`
are texts, not addresses.

Where code and comments disagree the model follows the code:

- `pthreads-w32/pthreads.2/pthread_cond_wait.c:384` says that being cancelled in the first sem_wait "is OK".
  A waiter that is cancelled there just as the gate is posted consumes the post
  (`pthreads-w32/pthreads.2/sem_wait.c:56-63`), and the gate never opens again (`SwallowedExample`,
  `SwallowedForever`); otherwise it does (`GateReopens`).
- `pthreads-w32/pthreads.2/ptw32_callUserDestroyRoutines.c:91` says at most PTHREAD_DESTRUCTOR_ITERATIONS
  passes; the code can make one more, which calls no destructor and empties the chain. `PassesIff` says
  for which destructors; `StubbornDestructor` needs it.
- `pthreads-w32/pthreads.2/implement.h:442-444` says an association is destroyed right after the
  destructor was called; the code keeps it until a later pass finds its value NULL (`Visit`, `QuietPasses`).
- `pthreads-w32/pthreads.2/ptw32_MCS_lock.c:260` calls the new node's nextFlag "not needed"; the next
  thread to queue sets it, and the proof needs it to start at 0.
- `codeconv/win32/getoptw.c:206-259` describes one option string for a scan; the code drops a
  leading '-' or '+' in the first call only, so `Parse` takes both strings. `FlagExample` has two
  inputs on which this changes the answers, `OneStringSuffices` says exactly when it does.
- `codeconv/win32/getoptw.c:537` treats "-W foo" the same as "--foo"; `WLikeLong` and `WApart` say
  exactly when, `WExample` is an input where it is not. If foo is ambiguous the code also drops the argument
  behind it, and moves optind past argc if there is none (`OverrunExample`, `OverrunExactly`).
- Rescanning permuted arguments may change their meaning; `Rescan` says exactly when.

One caller asks more of the queue lock than it gives:
`pthreads-w32/pthreads.2/ptw32_callUserDestroyRoutines.c:98-119` acquires with its local node
again as soon as that is released. A thread that queued behind may still be setting
nextFlag then, and a later release can follow a null pointer (`NodeReuse.ReuseExample`).

## Model

| member | source | states |
|---|---|---|
| CondVar.NoLostWakeup | pthreads-w32/pthreads.2/pthread_cond_wait.c:291-341 | Registered and not cleaned-up waiters are always blocked + toUnblock - gone (gone counting 0 once a compaction has folded it); no one is counted gone while signals are outstanding; tokens posted or in flight cover every signalled waiter; signals issued equal those consumed plus those outstanding. |
| CondVar.PassesAreSignals | pthreads-w32/pthreads.2/pthread_cond_wait.c:431-434 | On every run from the start: the waiters let through semBlockQueue, the tokens posted to it and those about to be posted are together exactly the signals issued, so no waiter passes without one. |
| CondVar.UniqueGateToken | pthreads-w32/pthreads.2/pthread_cond_signal.c:92-134 | The gate token semBlockLock is in exactly one place: free, with one thread, or standing for the signalled waiters. A waiter cancelled at the gate that finds it posted takes the token with it: then it is nowhere, and that happens at most once. |
| CondVar.BlockedChangedUnderToken | pthreads-w32/pthreads.2/pthread_cond_wait.c:385-395 | nWaitersBlocked is changed only by the holder of the token, or by a signaller that owns mtxUnblockLock while the gate is closed. |
| CondVar.NobodyRegistersWhileSignalled | pthreads-w32/pthreads.2/pthread_cond_signal.c:87-134 | While signalled waiters remain no step registers a waiter, so later arrivals cannot take their wakeups. |
| CondVar.SignalReachesWaiters | pthreads-w32/pthreads.2/pthread_cond_signal.c:92-146 | A signal is a no-op exactly when every registered waiter is already signalled; otherwise it issues one wakeup, a broadcast one for each, or goes to close the gate. |
| CondVar.BroadcastReleasesAll | pthreads-w32/pthreads.2/pthread_cond_signal.c:92-146 | On every run, when nWaitersToUnblock is next 0 after the locked region of a broadcast, no waiter is registered: everyone who was there has been cleaned up. |
| CondVar.FoldLeavesAWaiter | pthreads-w32/pthreads.2/pthread_cond_signal.c:110-134 | Although the comparison of blocked with gone may be stale when the gate is closed, at least one registered waiter is left to unblock after the fold, and a broadcast covers all of them. |
| CondVar.CounterBounds | pthreads-w32/pthreads.2/pthread_cond_wait.c:301-326 | No counter is negative; for any number of threads gone stays within INT_MAX / 2, outside the locked region below it and, with no signal outstanding, at most blocked; with at most INT_MAX / 2 threads the other two stay within int. |
| CondVar.GateReopens | pthreads-w32/pthreads.2/pthread_cond_signal.c:110-146 | If and only if no waiter cancelled at the gate has taken the token with it: each run of internal steps is finite, none stops early, and some run ends with the gate open and no one inside but waiters that were not signalled, so that a signaller that waits for the gate while holding mtxUnblockLock does not deadlock with the waiters. |
| CondVar.SwallowedForever | pthreads-w32/pthreads.2/pthread_cond_wait.c:384-388 | Once that has happened, on every run and whatever is called: the gate stays closed, nobody registers, no signal is ever issued, and a signaller at the gate stays there with mtxUnblockLock. |
| CondVar.SwallowedExample | pthreads-w32/pthreads.2/sem_wait.c:56-63 | Four threads get there: one opens the gate while two wait for it, one of these is cancelled and its cleanup consumes the post; the signal of the fourth then never gets through. |
| CondVar.CondRecord.CleanUp | pthreads-w32/pthreads.2/pthread_cond_wait.c:301-326 | In-place region: one waiter fewer is registered, by one signal if any is outstanding and by counting it as gone otherwise; the new counters are those of the step system. |
| CondVar.CondRecord.Unblock | pthreads-w32/pthreads.2/pthread_cond_signal.c:92-110 | In-place region: moves n waiters from blocked to be unblocked, registers and forgets nobody. |
| CondVar.CondRecord.Fold | pthreads-w32/pthreads.2/pthread_cond_signal.c:119-134 | In-place region: drops the gone waiters from the blocked ones, then moves one or all; the number of registered waiters stays the same. |
| CondVar.CondRecord.constructor | pthreads-w32/pthreads.2/pthread_cond_init.c:98-100 | All three counters start at 0. |
| CondVar.CondRecord.CompactBlocked | pthreads-w32/pthreads.2/pthread_cond_wait.c:314-314 | In-place, the fold of the compacting thread: the gone waiters leave the blocked ones, so that the blocked ones are exactly the registered waiters; the counters are those of the step at WFold. |
| CondVar.CondRecord.CompactGone | pthreads-w32/pthreads.2/pthread_cond_wait.c:325-325 | In-place, the end of the compaction: no one is gone, the balance is what the fold left, the number of registered waiters; the counters are those of the step at WFoldReset. |
| McsLock.MutualExclusion | pthreads-w32/pthreads.2/ptw32_MCS_lock.c:158-220 | At most one thread holds the lock or is giving it up, its node is the head of the queue, the nodes queued are distinct, and the lock pointer names the last of them or is null; also if transfers bring nodes that are still being notified. |
| McsLock.RefinesFifo | pthreads-w32/pthreads.2/ptw32_MCS_lock.c:158-278 | Every step acts on the abstract queue as a FIFO lock: an exchange appends, a try succeeds exactly on the empty queue, a release removes its own node from the head, a transfer replaces the head and keeps all successors in order, every other step leaves it alone. |
| McsLock.CallsKeepQueue | pthreads-w32/pthreads.2/ptw32_MCS_lock.c:242-252 | Calls, and handing the held node to the thread that will release it, leave the queue alone. |
| McsLock.GrantsInOrder | pthreads-w32/pthreads.2/ptw32_MCS_lock.c:192-220 | Whoever enters is the head; a releaser, also one that was handed the node, grants to the node right behind its own. |
| McsLock.FlagsSetOnce | pthreads-w32/pthreads.2/ptw32_MCS_lock.c:102-144 | A flag is set once in each use of a node, on 0 or on an event not yet set; after the wait for nextFlag the next pointer is never null. |
| McsLock.AcquireHolds | pthreads-w32/pthreads.2/ptw32_MCS_lock.c:158-179 | On every run from the exchange of an acquire to its return the thread holds the lock in between. |
| McsLock.EveryCallerServed | pthreads-w32/pthreads.2/ptw32_MCS_lock.c:102-220 | No reachable state with a non-empty queue is stuck: if holders release, every run of steps is finite and ends with everyone served and the lock pointer null, so no notification is lost. |
| NodeReuse.HolderMayReuse | pthreads-w32/pthreads.2/ptw32_MCS_lock.c:242-278 | The holder may at any time transfer the lock to a node released before with which nobody acquires, even one still being notified, as the barrier does with its proxynode in every round: no run from there breaks. |
| NodeReuse.ReuseIff | pthreads-w32/pthreads.2/ptw32_MCS_lock.c:102-220 | A thread acquires, or tries to, with a node whose calls are over. Some run from there comes to a release that follows a null next pointer if and only if another thread is still inside ptw32_mcs_flag_set on the nextFlag of that node. |
| NodeReuse.OnlyHasteBreaks | pthreads-w32/pthreads.2/ptw32_MCS_lock.c:192-220 | On runs in which calls may bring any node whose calls are over, a release follows a null next pointer only if some acquire or try-acquire before brought a node still being notified; a transfer never does harm. |
| NodeReuse.ReuseExample | pthreads-w32/pthreads.2/ptw32_callUserDestroyRoutines.c:98-119 | A run of two threads from the start to such a release: one acquires, releases, and acquires with its local node again while the other has not finished ptw32_mcs_flag_set. |
| NodeReuse.AnyExclusion | pthreads-w32/pthreads.2/ptw32_MCS_lock.c:158-220 | On runs in which calls may bring any node whose calls are over, also one still being notified: at most one thread holds the lock or is giving it up, its node is the head of the queue, the nodes queued are distinct, and the lock pointer names the last of them or is null. |
| NodeReuse.AnyFifo | pthreads-w32/pthreads.2/ptw32_MCS_lock.c:158-278 | On those runs too every step acts on the queue as a FIFO lock. |
| Barrier.RoundsAreComplete | pthreads-w32/pthreads.2/pthread_barrier_wait.c:54-103 | Every finished round was entered and left by nInitialBarrierHeight threads, exactly one of which was told PTHREAD_BARRIER_SERIAL_THREAD; nobody has left the current round before it was full. |
| Barrier.NobodyLeavesEarly | pthreads-w32/pthreads.2/pthread_barrier_wait.c:57-87 | A thread that is past the semaphore, or can pass it, belongs to the round under way, and that round is full. |
| Barrier.NobodyEntersEarly | pthreads-w32/pthreads.2/pthread_barrier_wait.c:54-57 | A thread that enters finds every earlier round left by all, nobody leaving, room in the round, and the semaphore at 0. |
| Barrier.HeightAndTokenBounds | pthreads-w32/pthreads.2/pthread_barrier_wait.c:57-96 | The unsigned height stays between 0 and its initial value; the semaphore is 0 except while a full round is being left. |
| Barrier.FullRoundsDrain | pthreads-w32/pthreads.2/pthread_barrier_wait.c:64-103 | Every run of steps is finite and ends with the lock free and nobody inside except waiters of a round that too few threads have entered. |
| Barrier.CallsFillRounds | pthreads-w32/pthreads.2/pthread_barrier_wait.c:33-105 | On every run from the start that has nothing left to do, the calls made are nInitialBarrierHeight for each round that is over and one for each thread that waits, fewer than nInitialBarrierHeight, all for the round under way. |
| Barrier.BarrierRecord.Arrive | pthreads-w32/pthreads.2/pthread_barrier_wait.c:57-57 | In-place decrement: the new height is that of the step system, and the last arrival is recognised. |
| Barrier.BarrierRecord.Depart | pthreads-w32/pthreads.2/pthread_barrier_wait.c:90-99 | In-place increment: exactly the leaver that restores the initial height is the serial thread. |
| Barrier.BarrierRecord.Open | pthreads-w32/pthreads.2/pthread_barrier_wait.c:69-74 | In-place: releases all other threads of the round at once, and none for a height of 1. |
| RwLock.WritersExclude | pthreads-w32/pthreads.2/pthread_rwlock_wrlock.c:87-130 | While a thread holds the lock for writing no other holds it for reading or writing. |
| RwLock.ReadersFromCounters | pthreads-w32/pthreads.2/pthread_rwlock_wrlock.c:76-130 | The readers inside are shared - completed, or -completed while a writer drains; both counts are 0 while a writer holds. |
| RwLock.UndoRestores | pthreads-w32/pthreads.2/ptw32_rwlock_cancelwrwait.c:45-49 | Timeout or cancellation of a draining writer leaves shared equal to the readers inside and nothing completed or exclusive. |
| RwLock.UnlockedReadIsRight | pthreads-w32/pthreads.2/pthread_rwlock_unlock.c:68-90 | The unlocked read of nExclusiveAccessCount is nonzero exactly for the writer, so unlock always takes the branch of its caller. |
| RwLock.FreshHolderSeesZero | pthreads-w32/pthreads.2/pthread_rwlock_trywrlock.c:88-119 | Whoever newly holds both mutexes reads 0: the final branch of trywrlock, which would keep both mutexes, is unreachable. |
| RwLock.CountBounds | pthreads-w32/pthreads.2/pthread_rwlock_rdlock.c:81-99 | On every run with fewer than INT_MAX readers inside at any time, those between the count and the fold included, no counter overflows, however many locks and unlocks it has. |
| RwLock.ReadLockHolds | pthreads-w32/pthreads.2/pthread_rwlock_rdlock.c:76-101 | On every run an untimed rdlock holds the lock for reading before it returns. |
| RwLock.WriteLockHolds | pthreads-w32/pthreads.2/pthread_rwlock_wrlock.c:76-130 | On every run on which its wait is not cancelled an untimed wrlock holds the lock for writing before it returns. |
| RwLock.TryWriteAlone | pthreads-w32/pthreads.2/pthread_rwlock_trywrlock.c:76-119 | Uninterrupted, trywrlock comes back with the lock if and only if both mutexes are free and no reader is inside, and otherwise without it, with both mutexes and the number of readers as before. |
| RwLock.TryReadAlone | pthreads-w32/pthreads.2/pthread_rwlock_tryrdlock.c:76-103 | Uninterrupted, tryrdlock comes back with the lock if and only if mtxExclusiveAccess is free, or it waits for the other mutex to fold a count that has reached INT_MAX; otherwise nothing has changed. |
| RwLock.EveryCallerServed | pthreads-w32/pthreads.2/pthread_rwlock_timedwrlock.c:91-136 | Every run in which holders unlock is finite and ends with both mutexes free and nobody inside. |
| RwLock.RwRecord.CountIn | pthreads-w32/pthreads.2/pthread_rwlock_tryrdlock.c:81-81 | In-place: one reader more, and the count that asks for a fold is recognised. |
| RwLock.RwRecord.FoldCompleted | pthreads-w32/pthreads.2/pthread_rwlock_rdlock.c:90-91 | In-place fold: the number of readers inside does not change. |
| RwLock.RwRecord.WriterCheck | pthreads-w32/pthreads.2/pthread_rwlock_wrlock.c:87-97 | In-place: folds, then starts to drain exactly if readers are inside and takes the lock otherwise. |
| RwLock.RwRecord.WriterTest | pthreads-w32/pthreads.2/pthread_rwlock_wrlock.c:113-130 | In-place: waits on while readers remain and takes the lock when the last has left. |
| RwLock.RwRecord.CancelWait | pthreads-w32/pthreads.2/ptw32_rwlock_cancelwrwait.c:45-46 | In-place undo: the readers inside stay counted. |
| RwLock.RwRecord.TryWriterCheck | pthreads-w32/pthreads.2/pthread_rwlock_trywrlock.c:88-119 | In-place: takes the lock exactly if no reader is inside. |
| RwLock.RwRecord.CountOut | pthreads-w32/pthreads.2/pthread_rwlock_unlock.c:76-79 | In-place: one reader fewer; exactly the last one that a draining writer waits for signals. |
| RwLock.RwRecord.WriterOut | pthreads-w32/pthreads.2/pthread_rwlock_unlock.c:85-85 | In-place: the writer gives up its access; no reader appears. |
| Mutex.MutualExclusion | pthreads-w32/pthreads.2/pthread_mutex_lock.c:75-141 | At most one thread holds the mutex, and the word is 0 exactly when none does. |
| Mutex.OwnerReadIsExact | pthreads-w32/pthreads.2/pthread_mutex_unlock.c:87-107 | The unlocked comparison of ownerThread with self is true exactly for a thread that already holds the mutex, and then recursive_count is its depth. |
| Mutex.NoStrandedWaiter | pthreads-w32/pthreads.2/pthread_mutex_unlock.c:63-109 | If any thread is blocked then the word is -1 and somebody holds the mutex, or the event is set, or some thread is about to exchange -1 or to set the event, even though a newcomer may overwrite -1 with 1. |
| Mutex.LockHolds | pthreads-w32/pthreads.2/pthread_mutex_lock.c:75-141 | On every run an untimed lock by a thread that does not hold the mutex holds it before it returns. |
| Mutex.EveryCallerServed | pthreads-w32/pthreads.2/pthread_mutex_timedlock.c:137-197 | If holders unlock, every run of steps is finite and ends with everyone served and the word 0. |
| Mutex.MutexRecord.ExchangeLoop | pthreads-w32/pthreads.2/pthread_mutex_lock.c:84-93 | The loop comes back with the mutex at once if the word is 0, and else with the first wait that ends the call: with the mutex if that finds the word 0, and with ETIMEDOUT if it is the one that expires. Either way the word is -1, and owner and count are untouched. |
| Mutex.MutexRecord.Lock | pthreads-w32/pthreads.2/pthread_mutex_lock.c:78-141 | Uncontended the word becomes 1; contended it becomes -1 and the result is that of the loop; a relock by the owner counts or is EDEADLK; owner and count are those of the caller if it got the mutex, and the old ones if not. |
| Mutex.MutexRecord.TryLock | pthreads-w32/pthreads.2/pthread_mutex_trylock.c:69-94 | The uninterrupted call does what its steps do: a free mutex is taken, with owner and count 1 unless it is normal; the owner of a recursive one counts; everyone else gets EBUSY with nothing changed. |
| Mutex.UnlockAlone | pthreads-w32/pthreads.2/pthread_mutex_unlock.c:87-107 | The steps of an owner that nobody interrupts: the count goes down, and at 0 the owner is cleared, the word is 0 and the event is set exactly if the word was negative. |
| Mutex.MutexRecord.Unlock | pthreads-w32/pthreads.2/pthread_mutex_unlock.c:63-109 | The uninterrupted call does what its steps do, and is EPERM with nothing changed exactly for a caller that does not own a non-normal mutex. |
| Semaphore.Conservation | pthreads-w32/pthreads.2/sem_timedwait.c:56-94 | value = initial + posted - acquired - pending waiters, kernel count = pending waiters - max(0, -value), and acquisitions never exceed initial + posted. |
| Semaphore.RefinesCounter | pthreads-w32/pthreads.2/sem_wait.c:132-151 | Each step acts on the available tokens as a plain counting semaphore, and a wait is given up only when none is available. |
| Semaphore.StepsMeet | pthreads-w32/pthreads.2/ptw32_semwait.c:91-123 | What each call does: a wait or try takes a token if and only if the value is positive, a wait that the kernel semaphore lets through takes one, a post adds its count if and only if that is in range, and a wait is given up only if nothing is available. |
| Semaphore.ValueBounds | pthreads-w32/pthreads.2/sem_post.c:94-118 | The value stays within int and the kernel count within its maximum, so releasing the kernel semaphore cannot fail. |
| Semaphore.BulkPostIsRepeatedPost | pthreads-w32/pthreads.2/sem_post_multiple.c:98-130 | A bulk post succeeds exactly if count is positive and in range, then equals that many single posts, and otherwise changes nothing. |
| Semaphore.NoTokenIsStranded | pthreads-w32/pthreads.2/ptw32_semwait.c:91-123 | Every run of steps is finite and ends with nobody inside except waiters for which nothing is available. |
| Semaphore.SemRecord.Decrement | pthreads-w32/pthreads.2/ptw32_semwait.c:91-96 | In-place decrement: keeps conservation, and waits exactly if nothing was left. |
| Semaphore.SemRecord.CleanUp | pthreads-w32/pthreads.2/sem_timedwait.c:56-94 | In-place cleanup: takes a late token, one acquisition, exactly if the kernel count is positive, and withdraws otherwise; keeps conservation either way. |
| Semaphore.SemRecord.TryAcquire | pthreads-w32/pthreads.2/sem_trywait.c:97-104 | In-place try: one acquisition if the value is positive, EAGAIN with nothing changed otherwise; keeps conservation. |
| Semaphore.SemRecord.PostOne | pthreads-w32/pthreads.2/sem_post.c:94-118 | In-place post: keeps conservation, ERANGE with nothing changed at the maximum. |
| Semaphore.SemRecord.PostMany | pthreads-w32/pthreads.2/sem_post_multiple.c:98-130 | In-place bulk post: keeps conservation, releases min(waiters, count), EINVAL and ERANGE with nothing changed. |
| Semaphore.SemRecord.TakeKernel | pthreads-w32/pthreads.2/ptw32_semwait.c:94-97 | In-place: a waiter that the kernel semaphore lets through completes one acquisition. |
| KeyGrid.Grid.Represents | pthreads-w32/pthreads.2/implement.h:391-496 | The grid is a relation of threads and keys: every association is in its own thread's and its own key's chain and in no other, chains are acyclic with inverse links, and there is at most one association for a pair. |
| KeyGrid.LinkToKey | pthreads-w32/pthreads.2/ptw32_tkAssocCreate.c:97-103 | In-place push at the head of the key's chain. |
| KeyGrid.LinkToThread | pthreads-w32/pthreads.2/ptw32_tkAssocCreate.c:108-114 | In-place push at the head of the thread's chain. |
| KeyGrid.Grid.AssocCreate | pthreads-w32/pthreads.2/ptw32_tkAssocCreate.c:84-116 | Adds exactly one pair, at the head of both chains, and nothing to what a destructor pass of any thread has still to visit. |
| KeyGrid.Grid.Insert | pthreads-w32/pthreads.2/ptw32_tkAssocCreate.c:91-114 | The two pushes among all other chains: exactly the pair's column and row grow at their heads. |
| KeyGrid.UnlinkFromThread | pthreads-w32/pthreads.2/ptw32_tkAssocDestroy.c:68-91 | In-place removal from the thread's chain; nextAssoc moves on exactly if it stood on the removed association. |
| KeyGrid.UnlinkFromKey | pthreads-w32/pthreads.2/ptw32_tkAssocDestroy.c:94-109 | In-place removal from the key's chain. |
| KeyGrid.Grid.Detach | pthreads-w32/pthreads.2/ptw32_tkAssocDestroy.c:67-109 | The two removals among all other chains: exactly the pair's column and row shrink. |
| KeyGrid.FromWithout | pthreads-w32/pthreads.2/ptw32_tkAssocDestroy.c:84-91 | Moving nextAssoc on keeps it in the live chain or null and takes exactly the removed association out of what is still to be visited. |
| KeyGrid.Grid.AssocDestroy | pthreads-w32/pthreads.2/ptw32_tkAssocDestroy.c:63-112 | Removes exactly one pair, keeps the grid valid, and removes it from what the passes of all threads have still to visit; null does nothing. |
| KeyGrid.Grid.FindAssoc | pthreads-w32/pthreads.2/pthread_setspecific.c:129-143 | The search finds the association of the pair, and null exactly if there is none. |
| KeyGrid.Grid.Associate | pthreads-w32/pthreads.2/pthread_setspecific.c:126-154 | After search and insertion the pair is related; the rows of all other keys and the chains of all other threads are the old ones. |
| KeyGrid.Grid.Store | pthreads-w32/pthreads.2/pthread_setspecific.c:157-163 | Stores the value of one key in one thread; every value that a destructor waits for stays reachable. |
| KeyGrid.Grid.SetSpecific | pthreads-w32/pthreads.2/pthread_setspecific.c:108-164 | Stores the value; relates the pair exactly if the key has a destructor and the value is not NULL, without a second association; keeps every value that a destructor waits for reachable. |
| KeyGrid.Grid.DropHead | pthreads-w32/pthreads.2/pthread_key_delete.c:86-105 | One round destroys the head of the row. |
| KeyGrid.Grid.DropRow | pthreads-w32/pthreads.2/pthread_key_delete.c:86-107 | The loop empties the key's row and touches no other association. |
| KeyGrid.WithoutKeyWithout | pthreads-w32/pthreads.2/pthread_key_delete.c:98-104 | Destroying one association of the key does not change what all chains are without that key. |
| KeyGrid.Grid.KeyDelete | pthreads-w32/pthreads.2/pthread_key_delete.c:72-122 | Removes the key's whole row from all threads' chains and from what their passes have still to visit, and nothing else. |
| KeyGrid.Grid.KeyCreate | pthreads-w32/pthreads.2/pthread_key_create.c:81-105 | A new key is live, has an empty row, and no thread has a value for it; all other rows stay. |
| KeyGrid.Grid.PerformOne | pthreads-w32/pthreads.2/pthread_key_delete.c:74-104 | One call by a destructor or another thread has exactly its effect: a live key that is deleted is dead and gone from the chain and from what is still to be visited; a new key is live without a value; a value set by the thread itself is stored, at most one association joins the head of its chain, and what another thread sets changes nothing of it. |
| KeyGrid.Grid.Perform | pthreads-w32/pthreads.2/ptw32_callUserDestroyRoutines.c:121-151 | A script of such calls, of any length, has exactly the effects of its calls one after the other on the exiting thread's keys, values, chain, and what the pass has still to visit: nothing is added to that, and other threads only take away. |
| KeyGrid.Grid.Rewind | pthreads-w32/pthreads.2/ptw32_callUserDestroyRoutines.c:98-108 | At the start of a pass the whole chain is still to be visited. |
| KeyGrid.Grid.Advance | pthreads-w32/pthreads.2/ptw32_callUserDestroyRoutines.c:156-156 | Stepping on takes the current association, and no other of its key, out of what is still to be visited. |
| KeyGrid.Grid.Claim | pthreads-w32/pthreads.2/ptw32_callUserDestroyRoutines.c:156-168 | The pass steps on and clears the value of a key that it will not meet again in this pass. |
| KeyGrid.Grid.Retire | pthreads-w32/pthreads.2/ptw32_callUserDestroyRoutines.c:218-227 | An association whose value is NULL is dropped; the pass goes on where it was. |
| KeyGrid.Grid.RunDestructor | pthreads-w32/pthreads.2/ptw32_callUserDestroyRoutines.c:170-217 | A destructor is called only with a value that is not NULL and after the key's value has been cleared; afterwards the heap shows exactly what its calls have done. |
| KeyGrid.Grid.Visit | pthreads-w32/pthreads.2/ptw32_callUserDestroyRoutines.c:154-228 | One visit does to the heap what it does in the reference on values, for any destructor: it calls the destructor or drops the association, and leaves strictly less to visit, none of it for the same key. A destructor that does nothing, or gives its own key a value again, leaves the chain as it was: the association stays; if none is called it is gone. |
| KeyGrid.Grid.Pass | pthreads-w32/pthreads.2/ptw32_callUserDestroyRoutines.c:95-228 | One pass ends, and for any destructors and other threads its calls and the keys, values and chain it leaves are those of the reference on values. It calls each key's destructor at most once, calls none after PTHREAD_DESTRUCTOR_ITERATIONS passes, and leaves the chain empty if it called none. If destructors keep to their own key, the calls are one for every value, the associations kept are exactly those, in their order, and each key has the value its destructor gave it. |
| KeyGrid.CallsBounded | pthreads-w32/pthreads.2/ptw32_callUserDestroyRoutines.c:171-171 | A key's destructor is called at most PTHREAD_DESTRUCTOR_ITERATIONS times in all. |
| KeyGrid.CallsArePasses | pthreads-w32/pthreads.2/ptw32_callUserDestroyRoutines.c:93-96 | A key's calls are as many as the passes in which it was called. |
| KeyGrid.PassesIff | pthreads-w32/pthreads.2/ptw32_callUserDestroyRoutines.c:93-230 | Destructors that give only their own key a value again, or none: there are more than n passes if and only if some key in the chain has a value that its destructor replaces n - 1 times in a row. For n = PTHREAD_DESTRUCTOR_ITERATIONS that is when all PTHREAD_DESTRUCTOR_ITERATIONS + 1 passes are made. |
| KeyGrid.QuietPasses | pthreads-w32/pthreads.2/ptw32_callUserDestroyRoutines.c:93-230 | Destructors that do nothing: two passes if any value is not NULL, else one, and one call for every value. |
| KeyGrid.StubbornDestructor | pthreads-w32/pthreads.2/ptw32_callUserDestroyRoutines.c:93-230 | One thread, one key and a destructor that sets its value again: all PTHREAD_DESTRUCTOR_ITERATIONS + 1 passes are made. |
| KeyScripts.DeletedNotCalled | pthreads-w32/pthreads.2/ptw32_callUserDestroyRoutines.c:170-217 | After the call of a destructor that deletes a key that was there at the start, that key's own destructor is not called any more, in the same pass or a later one, whatever destructors and other threads do. |
| KeyScripts.DeletedByOthers | pthreads-w32/pthreads.2/ptw32_callUserDestroyRoutines.c:121-151 | A key that was there at the start and that another thread deletes on some trip is not called on that trip or a later one. |
| KeyScripts.DeletedInPass | pthreads-w32/pthreads.2/ptw32_callUserDestroyRoutines.c:95-228 | The same for one pass, at the end of which the key is dead. |
| KeyScripts.ScriptDeletes | pthreads-w32/pthreads.2/pthread_key_delete.c:74-104 | A script that deletes a key, anywhere among its calls, leaves it dead. |
| KeyGrid.DeletingDestructor | pthreads-w32/pthreads.2/ptw32_callUserDestroyRoutines.c:170-217 | One thread and two keys with values; the destructor of the newer key deletes the older key, and is the only one called: one call in two passes. |
| KeyGrid.Grid.DestroyAll | pthreads-w32/pthreads.2/ptw32_callUserDestroyRoutines.c:93-230 | The outer loop: its passes and calls are those of the reference on values, for any destructors and other threads; every pass but the last called a destructor and the last called none, calls per key and pass, and the empty chain. If destructors keep to their own key, the number of passes and all calls are those computed from the chain and the values. |
| KeyGrid.Grid.CallUserDestroyRoutines | pthreads-w32/pthreads.2/ptw32_callUserDestroyRoutines.c:79-231 | For arbitrary destructors and other threads, which set values, delete keys and create new ones: the number of passes and all calls, in their order, are those of the reference on values. Every pass but the last called a destructor, and there are at most PTHREAD_DESTRUCTOR_ITERATIONS + 1; the chain is empty at return and no key with a destructor has a value left. If destructors keep to their own key, all PTHREAD_DESTRUCTOR_ITERATIONS + 1 passes are made if and only if some value is replaced in each but the last of the others; if nobody does anything, there are exactly two passes if there was any value, else one, and one call for every value, newest key first. |
| KeyGrid.Grid.NothingLeft | pthreads-w32/pthreads.2/ptw32_callUserDestroyRoutines.c:219-224 | With an empty chain no live key with a destructor has a value left in the thread. |
| Getopt.SwapBlocks | codeconv/win32/getoptw.c:141-147 | The inner loops swap two blocks of equal length element by element and touch nothing else. |
| Getopt.BottomMoved | codeconv/win32/getoptw.c:136-149 | After the short bottom block has gone to its place, exchanging the two blocks left gives what belongs between. |
| Getopt.TopMoved | codeconv/win32/getoptw.c:150-164 | The same after the short top block has gone to its place. |
| Getopt.Rotate | codeconv/win32/getoptw.c:123-165 | For all lengths the loop turns A B into B A in place with both orders kept, touches nothing outside, and ends. |
| Getopt.GetoptData.Exchange | codeconv/win32/getoptw.c:123-171 | Block rotation with first_nonopt and last_nonopt relocated to the new place of the non-options. |
| Getopt.GetoptData.Initialize | codeconv/win32/getoptw.c:175-203 | No arguments skipped yet; the ordering and the option string without its flag character. |
| Getopt.FindNameEnd | codeconv/win32/getoptw.c:401-404 | The length of the option name in front of an equals sign. |
| Getopt.FindLong | codeconv/win32/getoptw.c:407-431 | An exact name wins; else the first abbreviated option, unless a later one clashes with it (any later one under long_only). |
| Getopt.GetoptData.FoundOption | codeconv/win32/getoptw.c:443-494 | Argument behind the equals sign, in the next argument, missing, or not allowed; flag or val. |
| Getopt.GetoptData.LongOption | codeconv/win32/getoptw.c:393-517 | A long option by its table entry, ambiguous or unknown; or handed on to be taken as short options, exactly where the reference does. |
| Getopt.GetoptData.LongShort | codeconv/win32/getoptw.c:537-653 | -W foo, if the option string has "W;": the text in the same argument, in the next, or missing; looked up as a long option, where every two abbreviated options clash. |
| Getopt.GetoptData.NamedOption | codeconv/win32/getoptw.c:610-650 | The long option behind -W: argument behind the equals sign, in the next argument, missing, or not allowed; flag or val. |
| Getopt.GetoptData.ShortOption | codeconv/win32/getoptw.c:519-693 | One short option: unknown, -W, without argument, with optional or required argument, or with its argument missing, as the reference decodes it. |
| Getopt.GetoptData.DecodeOption | codeconv/win32/getoptw.c:390-693 | Long options first where they may stand, else short ones: the answer, optarg, optopt, optind and the characters left are those of the reference. |
| Getopt.GetoptData.Settle | codeconv/win32/getoptw.c:306-313 | Brings the options in front of the arguments skipped before them, in either of its two ways. |
| Getopt.GetoptData.SkipNonoptions | codeconv/win32/getoptw.c:305-323 | Brings the options in front of the skipped arguments, then skips exactly the next arguments that are no options. |
| Getopt.GetoptData.SkipAll | codeconv/win32/getoptw.c:330-343 | "--" is taken as an option, everything behind it is skipped. |
| Getopt.GetoptData.Stop | codeconv/win32/getoptw.c:330-363 | Where the scan stops, the options stand in front and optind behind them. |
| Getopt.GetoptData.SkipStep | codeconv/win32/getoptw.c:305-323 | Skipping passes exactly the leading arguments that are no options, leaves what stands behind them untouched, permutes argv, and does not change where the scan will end. |
| Getopt.GetoptData.NextElement | codeconv/win32/getoptw.c:292-373 | Going to the next option does not change where the scan will end and moves nothing behind optind; the skipped arguments are the old ones and then those just passed, in their order; at the end the options are in front and optind is behind them. |
| Getopt.GetoptData.NextOption | codeconv/win32/getoptw.c:375-693 | Decoding one option adds the arguments it uses up to the options, skips nothing, and gives the next answer with the same end in view; optind passes argc exactly if that answer is the one of the reference that overruns. |
| Getopt.GetoptData.Scan | codeconv/win32/getoptw.c:275-693 | Every call gives the next answer of the reference parser with the same end in view, -1 exactly when none is left. At every return argv is a permutation; at every return but -1 and the overrunning answer the arguments from optind on are untouched, the skipped ones are the old ones and then those just passed, and all others stand in front of them in their order. |
| Getopt.GetoptData.GetoptInternal | codeconv/win32/getoptw.c:261-373 | The same for a call that may be the first, for every ordering, with what stands in front of optind kept, and optind past argc exactly at the answer that overruns; argc below 1 gives -1 at once. |
| Getopt.GetoptData.Run | codeconv/win32/getoptw.c:206-259 | If no answer overruns, a caller's loop ends; its answers are those of one pass over the unpermuted arguments up to the first -1, argv is permuted. If no answer is -1, argv is the options with their arguments followed by the others, and optind is between them; if a long option has the value -1, the caller stops at it and exactly the answers behind it are left. |
| Getopt.OverrunIff | codeconv/win32/getoptw.c:600-608 | A decoded option uses up more arguments than there are if and only if it is -W with an ambiguous text at the end of the last one. |
| ScanResults.OverrunExactly | codeconv/win32/getoptw.c:600-608 | optind passes argc if and only if the scan comes to an option -W whose text is the end of the last argument and ambiguous. |
| ScanResults.OverrunExample | codeconv/win32/getoptw.c:600-608 | The smallest case: -Wfoo with two long options that foo abbreviates; as the last argument it overruns, otherwise it uses up the argument behind it. |
| Getopt.WLikeLong | codeconv/win32/getoptw.c:537-650 | -Wfoo is decoded as --foo if and only if foo is clear where any two abbreviated options clash, and it has text behind an equals sign and takes an argument, or has no equals sign, needs an argument and one stands behind it. For every clear foo the return value, the table index, the flag and the width agree. |
| Getopt.WApart | codeconv/win32/getoptw.c:547-570 | -W foo is decoded as -Wfoo in every case, with one argument more used up. |
| Getopt.WExample | codeconv/win32/getoptw.c:610-650 | The smallest difference: with foo declared without argument, optarg is "foo" after -Wfoo and not set after --foo. |
| ParserLaws.LongByName | codeconv/win32/getoptw.c:371-517 | A call that comes to "--" and a name without an equals sign, exact or a clear abbreviation of one table entry, answers with that entry: its value, or 0 with the flag stored, its index, and its argument, which is the next one if it needs one, with the missing one reported. Under long_only the same for "-" and a name that is not one declared letter. |
| ParserLaws.LongWithText | codeconv/win32/getoptw.c:443-462 | With "=" and text behind the name the text is the argument, or the answer is '?' for an entry that takes none. |
| ParserLaws.LongUnclear | codeconv/win32/getoptw.c:433-441 | A name that abbreviates two different entries and is no exact name, or is unknown and cannot be a short option, is answered by '?' with optopt 0. |
| ParserLaws.ShortUndeclared | codeconv/win32/getoptw.c:519-535 | A letter that is not in the option string, or a colon, is answered by '?' with the letter in optopt, and the scan goes on with the letters behind it. |
| ParserLaws.ShortFlag | codeconv/win32/getoptw.c:519-535 | A letter that is declared without colon is the answer, and the scan goes on with the letters behind it. |
| ParserLaws.ShortWithArgument | codeconv/win32/getoptw.c:654-693 | A letter declared with a colon takes the rest of its argument, else the next one unless there are two colons; a missing one is reported with the letter in optopt. |
| ParserLaws.LettersApart | codeconv/win32/getoptw.c:519-531 | Letters in one argument are answered as in arguments of their own, if none can be a long option. |
| ParserLaws.WByName | codeconv/win32/getoptw.c:537-653 | -W with the clear name of an entry, in the same argument or the next: its value, index, flag and argument; how many arguments are used up. |
| ParserLaws.WAlone | codeconv/win32/getoptw.c:547-564 | -W with no text at all lacks its argument. |
| ParserLaws.WUnknown | codeconv/win32/getoptw.c:651-653 | -W with an unknown name is answered by 'W' with the text in optarg. |
| ParserLaws.WUnclear | codeconv/win32/getoptw.c:600-608 | -W with an ambiguous name is answered by '?', and one argument more is used up, even if there is none. |
| ParserLaws.OtherArgument | codeconv/win32/getoptw.c:186-203 | An argument that is no option is an answer 1 after '-' at the front of the option string, ends the scan after '+' or with POSIXLY_CORRECT set, and is passed over otherwise. |
| ParserLaws.DashesEnd | codeconv/win32/getoptw.c:330-343 | "--" is taken as an option without an answer, and nothing behind it is one. |
| ScanResults.StablePartition | codeconv/win32/getoptw.c:443-494 | The result is a permutation of the arguments that keeps the order of the options with their arguments and of all others, and the prefix in front of the first argument scanned. |
| ScanResults.SkippedAreNonoptions | codeconv/win32/getoptw.c:290-343 | Unless order is required, only arguments without option syntax are skipped, or arguments behind "--". |
| ScanResults.LabelsAreRoles | codeconv/win32/getoptw.c:290-373 | Under PERMUTE exactly these stand in front in the end: options, "--", and the arguments right behind an option that it takes, all of them not behind "--". |
| ScanResults.LabelledMeans | codeconv/win32/getoptw.c:290-373 | An argument in front is an option, or one of the arguments that an option in front takes. |
| ScanResults.OrderKept | codeconv/win32/getoptw.c:357-366 | Without PERMUTE argv is left as it was. |
| Getopt.AnswersGoOn | codeconv/win32/getoptw.c:520-693 | -1 is no answer, unless a long option has it as its value. |
| ScanResults.Rescan | codeconv/win32/getoptw.c:654-693 | Scanning the permuted arguments again gives the same answers if and only if it is not the case that the last argument is an option that lacks its argument while others were skipped. |
| ScanResults.WantsIffStarved | codeconv/win32/getoptw.c:470-688 | Which options those are, short, long or behind -W: exactly the ones that have to get an argument, have none attached, and stand last. |
| ScanResults.RescanExample | codeconv/win32/getoptw.c:673-688 | The smallest case of that exception: "x -a" under "a:". |
| OptionString.DecodeAffected | codeconv/win32/getoptw.c:186-192 | With the flag character in front of the option string an option is decoded otherwise if and only if it is affected: the flag character itself, where it is declared otherwise or sent to the long options, or a missing argument where the string behind the flag starts with a colon. |
| OptionString.OneStringSuffices | codeconv/win32/getoptw.c:275-283 | A scan gives the answers of the documented single option string if and only if no call after the first meets an affected option; then it leaves the same argv. |
| OptionString.FlagExample | codeconv/win32/getoptw.c:673-681 | The smallest cases: "-a -b" under "+:ab:", where a missing argument is reported as '?' and not as ':', and "-a -+" under "+ab". |

## Left out

- McsLock: steps are modelled on values; each is one interlocked operation or plain write, so there is no sequential region to run in place. Event creation and closing, and memory order weaker than sequential consistency, are not modelled.
- McsLock.MutualExclusion: runs in which an acquire or try-acquire brings a node that is still being notified are those of NodeReuse.AnyExclusion. Two calls with one node at the same time are outside the interface.
- McsLock.FlagsSetOnce: false of such runs, by NodeReuse.ReuseExample. There the event of an earlier use of a node is not told apart from that of the present one.
- CondVar.CounterBounds: says nothing of semBlockQueue, on which cancelled waiters may leave any number of spare tokens; its SEM_VALUE_MAX limit is not modelled.
- CondVar: the external mutex, and init, destroy and static initialisation of condition variables, are not modelled.
- RwLock: mutexes and the condition variable are abstract (owned locks; wait releases and sleeps in one step; spurious wakeups allowed). The timeout of pthread_rwlock_timedrdlock inside its INT_MAX branch, which changes the completed count without its mutex, is not modelled.
- RwLock: a thread has one program counter, hence one read lock at a time. With recursive read locks RwLock.EveryCallerServed fails: a reader that asks again while a writer drains waits for the writer, which waits for the reader.
- Mutex: robust kinds, relocking a normal mutex by its holder and unlocking it by another thread are not modelled. The record's Lock sees other threads only through the words its waits find.
- Semaphore: the cancellation handler of sem_wait is modelled by its stated intent, as in ptw32_sem_timedwait_cleanup (`pthreads-w32/pthreads.2/sem_wait.c:146` passes the semaphore itself, which line 63 then dereferences once more).
- KeyGrid.Grid.KeyDelete: both locks are preconditions; pthread_key_delete takes keyLock once before its loop but releases it in every iteration.
- KeyGrid.Grid.CallUserDestroyRoutines: assumes that the try-lock of a key fails only finitely often; exceptions thrown by destructors are not modelled.
- KeyGrid.Grid.SetSpecific: finding the calling thread, TLS slot numbers and failing TLS calls are not modelled; values are kept per key.
- Getopt.GetoptData.ShortOption: an option string with "W;" needs a table of long options; without one the code dereferences a null pointer.
- Getopt.GetoptData.GetoptInternal: calls after -1, callers that move optind by hand, messages and opterr, the sign of characters above 127, and the global-variable wrappers are not modelled.
- Getopt.GetoptData.Run: requires that no answer overruns, which ScanResults.OverrunExactly characterises; the next call would read argv behind its end.
- Memory exhaustion and failing Win32 calls, NEED_SEM variants, attributes, scheduling, thread start and exit, errno, and destruction races are environment or one-branch facts.
- ptw32_OLL_lock.c is not built. The string, memory and code-conversion helpers would add only easy facts.
