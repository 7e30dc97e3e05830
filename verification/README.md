# Locks and lock-free algorithms

A Dafny 4.11 model of the synchronisation code of the repository, with proofs of what it promises and,
where the code does not keep a promise, of exactly when it does. `dafny verify dfyconfig.toml` checks
everything.

## What is modelled

Concurrent code is a small-step transition system with sequentially consistent memory. A thread or a
request has a program counter and its locals, one step is one access to shared memory (the comment
behind each program counter names the line), and any number of threads is interleaved in any way. A
*run* is a sequence of states with the actions between them, from the initial state on; the theorems
hold in every state of every run. For code that works under a mutex, what happens between two waits is
one step, a signal wakes at least one sleeper, and a sleeper may also wake up of itself. What a theorem
says has happened (calls, returns, exceptions thrown, complete rounds) is read off the actions of the run.

Each object is also a class whose fields are the shared variables. Its methods are the accesses, or for
code under a mutex the calls up to a wait, written as in the code and updating the fields in place; each
is proved to do what the step function says. For the five locks and containers that have a `...Code`
module, `Execute` carries out any schedule with them (for the deferred lock any in which no call goes
wrong), so that what is proved of runs holds of the objects; the barrier, the semaphore, the pool and the
float word have the step theorems only. Fields and parameters that the code does not have (counts of what
has happened, who set a bit) are ghost, or are named as such where they are declared, and no guard of the
code reads them.

| modules | code | subject |
|---|---|---|
| `QueuedRwLock`, `...Invariant`, `...Steps`, `...Runs`, `...Completion`, `...Exclusion`, `...Overlap`, `...Code` | `delete-me/queued_rw_lock.hpp` | the fair queue lock; a request is numbered by its swap on `tail` |
| `LockfreePushBack`, `...Invariant`, `...Runs`, `...Progress`, `...Code` | `delete-me/lockfree_push_back.hpp` | concurrent append with growing container; a push is numbered by its fetch-and-add on `idx` |
| `DeferredRwLockSpec`, `DeferredRwLock`, `...Runs`, `...Code` | `delete-me/deferred_rwlock.hpp` | the intrusive queue lock: linked nodes on the heap, what each call does as a function on values, and whole runs of calls |
| `SpinRwLock`, `...Runs`, `...Code` | `delete-me/spinrwlock.hpp` | the 8-bit ticket lock and the unbounded one it stands for |
| `SpinRwLock2`, `...Runs`, `...Code` | `delete-me/spinrwlock2.hpp` | the packed-word lock |
| `CancellableBarrier` | `delete-me/cancellable_barrier.hpp` | the sense-reversing barrier |
| `Semaphore` | `delete-me/semaphore.hpp` | the monitor-based semaphore |
| `ThreadPool`, `ThreadPoolRuns` | `delete-me/thread_pool.hpp` | launch, workers and join |
| `AtomicFloat` | `akl/atomic.hpp`, `sync.c`, `akl/float.h` | compare-and-swap retry loops |
| `Bits`, `Sets`, `Wrappers` | | bit operations in arithmetic, sizes of sets, `Option` |

## What does not hold of the code

- **queued_rw_lock.** Readers and writers are not kept apart. `rdunlock` decrements the count (line 131)
  and empties the mailbox (line 133) in two accesses; a reader that pauses between them can later wake a
  writer that other readers are still inside with, and the assertion at line 62 fails.
  `QueuedRwLockOverlap.ReaderAndWriterTogether` is such a run. Call the swap of line 133 a late take when it
  finds a writer while readers are counted. `QueuedRwLockExclusion.FailureIff`: from any run without late
  takes, a step can be continued, with no further late take, to a failure of line 62 if and only if it is a
  late take, and then within three more accesses (`LateTakeFails`). A run can also go well in spite of a late
  take, when the readers leave in time (`LateTakeCanGoWell`). `ExclusionIfSwapsAtOnce` proves exclusion if the two accesses are
  never separated. Everything in `QueuedRwLockRuns` is proved of the code as it is.
- **deferred_rwlock.** The comments at lines 111-117 promise two lists. `complete_rdlock` dereferences
  null at line 122 when a single request is left behind the leading readers, and leaves `tail` on a
  request that has been let in when the last request of the queue is a reader behind a writer.
  `CompleteRdlock` is proved for every queue with these two conditions as equivalences,
  `DeferredRwLockRuns.BreaksExactly` says which calls go wrong, and `UnlockCanCrash` and
  `UnlockCanLoseTail` are runs in which they do. With 65536 readers inside the 16-bit count is zero and a
  writer gets in: a writer is alone in all runs if and only if fewer readers than that are about at a time
  (`NeverSharedIff`).
- **spinrwlock.** A writer is alone in all runs if and only if at most 256 requests may be outstanding
  (`SpinRwLockRuns.NeverOverlapIff`).
- **spinrwlock2.** A writer is alone in all runs of n threads if and only if n is at most 2^30
  (`SpinRwLock2Runs.NeverOverlapIff`).
- **cancellable_barrier.** A released thread can go back to sleep. That never happens if and only if the
  barrier is for at most one thread or no more threads than it is for use it (`NeverMissedIff`).
- **thread_pool.** A wake-up of `join` can be lost. That never happens if and only if at most one thread
  joins or there are no workers (`NeverForgottenIff`).
- **lockfree_push_back.** With 65537 pushes in flight, 65536 references set the bit of the flag, `flag_ref`
  clears it, and the container is resized while they write: whoever is past `wait_till_no_ref` is alone in
  all runs if and only if at most 65536 pushes may be in flight (`NeverIntrudesIff`). The range form of
  `push_back` returns the end of its range and the single-element form the index of its element
  (`ReturnValue`).
- **akl/atomic.hpp.** The comment at line 321 says that `dec_ret_last` returns the new value; the code
  returns the old one, and so does the model.

## Model

| member | source | states |
|---|---|---|
| QueuedRwLockSteps.StepInv | delete-me/queued_rw_lock.hpp:37-139 | any access by any request, in any state the queue, mailbox and count invariant allows, is safe and keeps the invariant |
| QueuedRwLockRuns.NoCrash | delete-me/queued_rw_lock.hpp:37-139 | in no run does an access go through null or to a request that was never swapped in, and the count never goes below zero |
| QueuedRwLockRuns.FairAdmission | delete-me/queued_rw_lock.hpp:37-120 | when a request has been let in, every request swapped in earlier has been let in, and every earlier writer has finished its unlock |
| QueuedRwLockRuns.OneWriter | delete-me/queued_rw_lock.hpp:37-77 | at most one writer has been let in and not finished |
| QueuedRwLockRuns.CountIsExact | delete-me/queued_rw_lock.hpp:65-139 | `reader_count` is the number of readers counted in, by themselves or by the request before them, and not yet decremented; all readers holding the lock are among them |
| QueuedRwLockRuns.NextUnblocks | delete-me/queued_rw_lock.hpp:37-139 | a step changes `blocked` of exactly the request it lets in, to false, and requests arrive blocked |
| QueuedRwLockRuns.UnblockTarget | delete-me/queued_rw_lock.hpp:37-139 | whoever is let in was blocked, so nobody is let in a second time |
| QueuedRwLockRuns.UnblockedOnce | delete-me/queued_rw_lock.hpp:37-139 | over a whole run each request is unblocked at most once, and whoever is let in was unblocked by some access |
| QueuedRwLockRuns.FinishedIsUntouched | delete-me/queued_rw_lock.hpp:65-139 | no access reads or writes a request whose unlock has returned, so its memory may be reused |
| QueuedRwLockCompletion.TouchesAll | delete-me/queued_rw_lock.hpp:37-139 | the requests that FinishedIsUntouched speaks of are all: what an access does depends on the shared variables, its own request and those, and it changes no others |
| QueuedRwLockRuns.NoDeadlock | delete-me/queued_rw_lock.hpp:37-139 | while a request is unfinished, some request holds the lock or has an access that changes the state: no wake-up is lost |
| QueuedRwLockCompletion.BoundedWork | delete-me/queued_rw_lock.hpp:37-139 | no livelock: in a run with n requests at most 18 n accesses change anything |
| QueuedRwLockCompletion.WaitsExactly | delete-me/queued_rw_lock.hpp:46-126 | an access changes nothing exactly while its request spins blocked, or needs its successor linked, or is finished |
| QueuedRwLockCompletion.EachHolds | delete-me/queued_rw_lock.hpp:37-139 | a request that is past the call of its unlock has held the lock |
| QueuedRwLockCompletion.ReadersShare | delete-me/queued_rw_lock.hpp:87-119 | behind a reader that holds the lock no reader is kept spinning |
| QueuedRwLockCompletion.ArrivalBegins | delete-me/queued_rw_lock.hpp:37-86 | a request begins blocked, behind all others, in the call of its class |
| QueuedRwLockRuns.PostedWriterIsSeen | delete-me/queued_rw_lock.hpp:46-53 | a posted writer with count zero is still at lines 49-50, or a reader is between lines 131 and 133 |
| QueuedRwLockExclusion.FailureIff | delete-me/queued_rw_lock.hpp:59-138 | from any run without late takes (a swap of line 133 that finds a writer while readers are counted), a step can be continued without further late takes to a failure of the assertion at line 62 if and only if it is a late take |
| QueuedRwLockExclusion.LateTakeFails | delete-me/queued_rw_lock.hpp:46-138 | after a late take in any run, the assertion at line 62 can fail after three more accesses at most, all by that reader and the writer it took |
| QueuedRwLockExclusion.FailureNeedsLateTake | delete-me/queued_rw_lock.hpp:59-138 | as long as a run has had no late take, the assertion at line 62 holds and no reader holds the lock beside a writer |
| QueuedRwLockExclusion.ExclusionStep | delete-me/queued_rw_lock.hpp:122-138 | the invariant `Exclusive`, that no reader is counted while a writer has been given the lock, which a writer taken out of the mailbox has been even before it is woken, is kept by every step but a late take and broken by every late take |
| QueuedRwLockExclusion.ExclusionIff | delete-me/queued_rw_lock.hpp:122-138 | `Exclusive`, which is stronger than that no reader holds the lock beside a writer, holds in all states of a run if and only if the run has no late take |
| QueuedRwLockExclusion.ExclusiveMeaning | delete-me/queued_rw_lock.hpp:59-63 | where `Exclusive` holds, the assertion at line 62 holds, and no reader holds the lock beside a writer |
| QueuedRwLockExclusion.ExclusionIfSwapsAtOnce | delete-me/queued_rw_lock.hpp:131-133 | if the swap of line 133 always follows the decrement to zero at once, no reader holds the lock beside a writer in any state and line 62 never fails |
| QueuedRwLockOverlap.ReaderAndWriterTogether | delete-me/queued_rw_lock.hpp:122-139 | a run of the code in which a reader holds the lock while a writer is at line 62 with a non-zero count |
| QueuedRwLockOverlap.LateTakeCanGoWell | delete-me/queued_rw_lock.hpp:59-139 | a run of the code with a late take after which line 62 does not fail and the writer gets the lock to itself |
| QueuedRwLockCode.Lock.Execute | delete-me/queued_rw_lock.hpp:34-139 | the object can carry out every schedule, ends where the schedule leads, and what it does is a run |
| LockfreePushBackInvariant.RefBits | delete-me/lockfree_push_back.hpp:19-39 | below 65536 holders, the two masks read exactly the flag and the number of holders, and the xor flips the flag and nothing else |
| LockfreePushBackInvariant.NextInv | delete-me/lockfree_push_back.hpp:84-192 | with at most 65536 pushes in flight, every action of every push is safe and keeps the invariant of ranges, reference word and contents |
| LockfreePushBackRuns.NoCrash | delete-me/lockfree_push_back.hpp:84-192 | every write of every run is inside the container, and no reference is dropped that is not held |
| LockfreePushBackRuns.WordIsExact | delete-me/lockfree_push_back.hpp:15-39 | `reference_count` is 65536 times the flag plus the number of holders, the flag belongs to the mutex owner, and a push past wait_till_no_ref is alone |
| LockfreePushBackRuns.RangesDisjoint | delete-me/lockfree_push_back.hpp:86-88 | no cell belongs to two pushes, and all reserved cells lie between the start index and `idx` |
| LockfreePushBackRuns.WritesOwnRange | delete-me/lockfree_push_back.hpp:90-115 | a step never shrinks the container and changes only cells of its own push's range |
| LockfreePushBackRuns.ResizeKeeps | delete-me/lockfree_push_back.hpp:105-110 | whenever line 107 resizes, the requested size is larger than the old one, so the container strictly grows; that it then has room and keeps its cells is the contract of its `resize` |
| LockfreePushBackRuns.Linearises | delete-me/lockfree_push_back.hpp:85-123 | the fetch-and-add appends the whole range to the abstract sequence and no other step changes that sequence |
| LockfreePushBackRuns.LogAt | delete-me/lockfree_push_back.hpp:86-88 | in the abstract sequence the elements of each push stand exactly in its reserved range |
| LockfreePushBackRuns.PushedStays | delete-me/lockfree_push_back.hpp:85-123 | once a push has returned, its elements are in its range in every later state |
| LockfreePushBackRuns.RefinesAppend | delete-me/lockfree_push_back.hpp:51-192 | with no push in flight, the container from the start index to `idx` is the concatenation of all pushed ranges in reservation order |
| LockfreePushBackRuns.PrefixStays | delete-me/lockfree_push_back.hpp:84-192 | what the container held below the start index is never changed |
| LockfreePushBackRuns.ReturnValue | delete-me/lockfree_push_back.hpp:84-192 | the range form returns the end of its range, the single form the index at which its element is |
| LockfreePushBackRuns.Progress | delete-me/lockfree_push_back.hpp:19-31 | while a push is in flight, some push in flight has an access that changes the state, or a resize |
| LockfreePushBackRuns.WaitsExactly | delete-me/lockfree_push_back.hpp:19-31 | a push in flight waits exactly at line 22 while the flag is set, and at line 30 while references are held |
| LockfreePushBackProgress.FinishesAlone | delete-me/lockfree_push_back.hpp:84-123 | from any state of any run in which no other push holds a reference or the mutex, a push returns by its own accesses alone |
| LockfreePushBackProgress.OnlyForRoom | delete-me/lockfree_push_back.hpp:90-118 | a push goes for the mutex only after it has found, under a reference, that its range does not fit |
| LockfreePushBackRuns.NeverIntrudesIff | delete-me/lockfree_push_back.hpp:15-39 | in all runs nobody holds a reference while a push is between wait_till_no_ref and the second flag_ref, if and only if at most 65536 pushes may be in flight |
| LockfreePushBackRuns.FlagOverflows | delete-me/lockfree_push_back.hpp:19-110 | whenever more may be in flight, a run in which one push is at the resize while 65536 others are writing |
| LockfreePushBackCode.PushBack.Execute | delete-me/lockfree_push_back.hpp:72-192 | the object can carry out every schedule, ends where the schedule leads, and what it does is a run |
| Bits.AndTop | delete-me/lockfree_push_back.hpp:22 | masking with 2^k a number below 2^(k+1) gives its top bit |
| Bits.XorTop | delete-me/lockfree_push_back.hpp:38 | xor with 2^k flips the top bit and leaves the rest |
| Bits.AndLow | delete-me/lockfree_push_back.hpp:30 | masking with 2^k - 1 drops the top bit and keeps the rest |
| DeferredRwLock.DeferredRwLock.InsertQueue | delete-me/deferred_rwlock.hpp:35-43 | the linked queue stays well formed and represents the old queue with the request behind it |
| DeferredRwLock.DeferredRwLock.InsertQueueHead | delete-me/deferred_rwlock.hpp:45-53 | the same with the request in front |
| DeferredRwLock.DeferredRwLock.CompleteWrlock | delete-me/deferred_rwlock.hpp:87-94 | the head leaves the queue and the writer flag is set |
| DeferredRwLock.DeferredRwLock.TakeLeading | delete-me/deferred_rwlock.hpp:99-109 | the first loop ends, stops at the first writer, and has counted and linked the leading readers |
| DeferredRwLock.DeferredRwLock.ExtractReaders | delete-me/deferred_rwlock.hpp:118-134 | the second loop ends with the nodes split in place into the list of readers and the list of writers, both in order, and counts the readers it moves |
| DeferredRwLock.DeferredRwLock.CompleteRdlock | delete-me/deferred_rwlock.hpp:96-136 | for every queue: null is dereferenced exactly when one request is left behind the leading readers; otherwise the released list begins with exactly the queued readers in order, the queue is exactly the writers in order, the count grows by the number released modulo 2^16, and `tail` is right exactly when the old last request was a writer or no writer was there |
| DeferredRwLock.DeferredRwLock.Wrunlock | delete-me/deferred_rwlock.hpp:138-156 | lets in the head of the queue with all readers if it is one; the assertion at line 146 holds |
| DeferredRwLock.DeferredRwLock.Rdunlock | delete-me/deferred_rwlock.hpp:206-228 | the last reader lets in the head of the queue, others nobody |
| DeferredRwLock.DeferredRwLock.Writelock | delete-me/deferred_rwlock.hpp:55-85 | a writer takes the lock exactly if it is free, and otherwise its node is the first of the queue with priority and the last without, the other nodes as they were |
| DeferredRwLock.DeferredRwLock.Readlock | delete-me/deferred_rwlock.hpp:158-204 | a reader joins if there is neither queue nor writer, or is queued, and lets in all readers if it finds one at the head and no writer |
| DeferredRwLockSpec.AddCountIs | delete-me/deferred_rwlock.hpp:108 | adding to the 16-bit count one by one is addition modulo 2^16 |
| DeferredRwLockSpec.SelectAt | delete-me/deferred_rwlock.hpp:111-117 | the requests of one class in order are those at the positions of that class |
| DeferredRwLockRuns.SelectConserves | delete-me/deferred_rwlock.hpp:111-135 | the readers and the writers of a queue together are its requests, each as often as before |
| DeferredRwLockRuns.StepInv | delete-me/deferred_rwlock.hpp:55-228 | with fewer than 2^16 readers about and any number of writers, every call that does not go wrong keeps the invariant of holders, queue and conservation |
| DeferredRwLockRuns.Exclusion | delete-me/deferred_rwlock.hpp:55-228 | a writer holds the lock alone; `writer` and `reader_count` say exactly who holds it; `writer` implies a count of zero |
| DeferredRwLockRuns.EachOnce | delete-me/deferred_rwlock.hpp:55-228 | each request is in exactly one of queued, holding and finished, and is let in once unless it is queued |
| DeferredRwLockRuns.CallsObeyLaws | delete-me/deferred_rwlock.hpp:55-228 | over all runs, by who is inside and who waits: which requests each lock call lets in, and where the others wait, in front with priority and behind without; an unlock lets nobody in while somebody is inside, and then the first of the queue, with all other readers, in order, if it is one |
| DeferredRwLockRuns.QueueHasHolders | delete-me/deferred_rwlock.hpp:55-228 | behind a free lock nobody waits, and without a writer inside the queue begins with a writer |
| DeferredRwLockRuns.DeadBranches | delete-me/deferred_rwlock.hpp:172-214 | lines 174-176 and 213-214 are never reached |
| DeferredRwLockRuns.BreaksExactly | delete-me/deferred_rwlock.hpp:138-228 | which calls of a run go wrong, by the queue before the call: an equivalence for all four kinds of call |
| DeferredRwLockRuns.UnlockCanCrash | delete-me/deferred_rwlock.hpp:118-122 | a run after which wrunlock dereferences null |
| DeferredRwLockRuns.UnlockCanLoseTail | delete-me/deferred_rwlock.hpp:118-134 | a run after which wrunlock leaves `tail` outside the queue |
| DeferredRwLockRuns.NeverSharedIff | delete-me/deferred_rwlock.hpp:55-204 | a writer holds the lock alone in all runs if and only if fewer than 2^16 readers may be queued or inside at a time |
| DeferredRwLockRuns.CountWraps | delete-me/deferred_rwlock.hpp:55-204 | where 2^16 readers may be about, a run in which a writer gets in beside 2^16 readers |
| DeferredRwLockCode.Execute | delete-me/deferred_rwlock.hpp:35-228 | the heap object can carry out every schedule in which no call goes wrong, ends where the schedule leads, with the holders read off the released lists, and what it does is a run |
| SpinRwLockRuns.GuardsExact | delete-me/spinrwlock.hpp:48-67 | each byte comparison holds exactly when the unbounded ticket is due |
| SpinRwLockRuns.Refines | delete-me/spinrwlock.hpp:44-73 | with at most 256 outstanding requests every step is a step of the lock with unbounded tickets that is due there, or none |
| SpinRwLockRuns.SpinsUntilDue | delete-me/spinrwlock.hpp:48-67 | a request leaves its loop exactly when its unbounded ticket is due |
| SpinRwLockRuns.WriterExcludes | delete-me/spinrwlock.hpp:44-73 | a writer inside is alone |
| SpinRwLockRuns.TicketOrder | delete-me/spinrwlock.hpp:44-73 | when a request has left its loop, every earlier reader has been let in and every earlier writer has finished |
| SpinRwLockRuns.NoLostUpdate | delete-me/spinrwlock.hpp:52-69 | although load and store are separate steps, `read++` and the 16-bit store add to what is in the word when they store |
| SpinRwLockRuns.BytesCount | delete-me/spinrwlock.hpp:26-34 | the three parts of the word count the completed, the passed and the issued requests modulo their width |
| SpinRwLockRuns.WordArithmetic | delete-me/spinrwlock.hpp:44-65 | on the 32-bit word an issue is an addition of 1 << 16, the ticket is a byte of the old word, and wrunlock replaces the low 16 bits |
| SpinRwLockRuns.Progress | delete-me/spinrwlock.hpp:44-73 | while a request is unfinished, some request holds the lock or has an access that changes the state |
| SpinRwLockRuns.WaitsExactly | delete-me/spinrwlock.hpp:44-73 | an access changes nothing exactly if the request is done, or is in its loop and its unbounded ticket is not due |
| SpinRwLockRuns.GetsIn | delete-me/spinrwlock.hpp:44-70 | from any state of any run a request whose unbounded ticket is due gets the lock by its own accesses, a writer by one and a reader by at most three |
| SpinRwLockRuns.Unlocks | delete-me/spinrwlock.hpp:52-73 | a holder gives the lock up by its own accesses, and no request is completed otherwise |
| SpinRwLockRuns.BoundIsTight | delete-me/spinrwlock.hpp:44-49 | whenever more than 256 requests may be outstanding, a run in which tickets 0 and 256 are both inside as writers |
| SpinRwLockRuns.NeverOverlapIff | delete-me/spinrwlock.hpp:44-73 | a writer is alone in all runs if and only if at most 256 requests may be outstanding |
| SpinRwLockCode.TicketWord.Execute | delete-me/spinrwlock.hpp:40-73 | the object can carry out every schedule, ends where the schedule leads, and what it does is a run |
| SpinRwLock2Runs.WordIsExact | delete-me/spinrwlock2.hpp:18-68 | the word is 4 times the holding and tentative readers modulo 2^32, plus 2 times the writer plus the wait bit, through failed swaps, undone readers and additions that wrap around, and the readers spill over only when every one of 2^30 threads is among them |
| SpinRwLock2Runs.WriterExcludes | delete-me/spinrwlock2.hpp:24-67 | with up to 2^30 threads a writer excludes all other holders |
| SpinRwLock2Runs.WaitNotStale | delete-me/spinrwlock2.hpp:29-43 | while the wait bit is set, the thread that set it is still in writelock; with no writer waiting or holding the low two bits are zero |
| SpinRwLock2Runs.TakesWhenFree | delete-me/spinrwlock2.hpp:29-58 | an access that gives a writer the lock finds nobody inside or retreating, and a reader's addition gives it the lock exactly with no writer inside and no wait bit |
| SpinRwLock2Runs.UndoRestores | delete-me/spinrwlock2.hpp:57-61 | a failed reader's addition and its undo leave the state as it was |
| SpinRwLock2Runs.Progress | delete-me/spinrwlock2.hpp:41-55 | while the access of some thread changes nothing, some thread holds the lock or has an access that changes the state |
| SpinRwLock2Runs.WriterGetsIn | delete-me/spinrwlock2.hpp:24-45 | from any state of any run with nobody inside or retreating, a waiting writer gets the lock by its own accesses alone, at most six |
| SpinRwLock2Runs.ReaderGetsIn | delete-me/spinrwlock2.hpp:51-63 | with no writer inside and no wait bit, a waiting reader gets it by at most three |
| SpinRwLock2Runs.SpinsExactly | delete-me/spinrwlock2.hpp:41-55 | a writer spins exactly while somebody is inside or retreating, a reader exactly while a writer is inside or the wait bit is set |
| SpinRwLock2Runs.Announces | delete-me/spinrwlock2.hpp:26-42 | a writer that finds the lock taken or loses its swap sets the wait bit, if it is not set, before it spins |
| SpinRwLock2Runs.EndsByRelease | delete-me/spinrwlock2.hpp:24-67 | a call ends exactly with the release of the lock, by one access |
| SpinRwLock2Runs.TooManyThreads | delete-me/spinrwlock2.hpp:24-63 | for every number of threads above 2^30, a run in which a writer gets in beside 2^30 readers |
| SpinRwLock2Runs.NeverOverlapIff | delete-me/spinrwlock2.hpp:24-67 | a writer is alone in all runs of n threads if and only if n is at most 2^30 |
| SpinRwLock2Code.PackedWord.Execute | delete-me/spinrwlock2.hpp:21-67 | the object can carry out every schedule, ends where the schedule leads, and what it does is a run |
| Bits.AndThree | delete-me/spinrwlock2.hpp:54 | masking with 3 gives the last two bits |
| Bits.OrOne | delete-me/spinrwlock2.hpp:39 | or with 1 sets the last bit and nothing else |
| CancellableBarrier.CalledIsExact | delete-me/cancellable_barrier.hpp:74-83 | for any number of threads, `called` is the number of calls of wait modulo `needed`, and every `needed` of them make a round |
| CancellableBarrier.LastCallReturns | delete-me/cancellable_barrier.hpp:74-86 | a call returns at once if and only if it completes a round, and then nobody is left asleep; otherwise it sleeps |
| CancellableBarrier.ReturnsExactly | delete-me/cancellable_barrier.hpp:73-87 | for any number of threads, one that gets the mutex back returns if and only if the round of its call is complete and an even number of rounds after it |
| CancellableBarrier.WakesOnly | delete-me/cancellable_barrier.hpp:83-86 | a sleeper wakes exactly by a call that completes a round or of itself |
| CancellableBarrier.NeverMissedIff | delete-me/cancellable_barrier.hpp:70-89 | in all runs of n threads no thread sleeps although the round of its call is complete, if and only if n is at most `needed` or `needed` is at most 1 |
| CancellableBarrier.NoEarlyReturn | delete-me/cancellable_barrier.hpp:69-89 | with at most `needed` threads, no thread returns from its k-th wait before every thread has entered its k-th wait |
| CancellableBarrier.BitsGiveRound | delete-me/cancellable_barrier.hpp:74-83 | for any number of threads, the sense bit is the parity of the complete rounds and the release bit its opposite |
| CancellableBarrier.CalledCountsWaiters | delete-me/cancellable_barrier.hpp:74-83 | with at most `needed` threads, `called` is the number of threads whose last call is for the current round |
| CancellableBarrier.ReleaseIsNotMissed | delete-me/cancellable_barrier.hpp:77-87 | with at most `needed` threads, a thread inside whose round is complete is awake and returns when it gets the mutex, however many threads have entered the next round |
| CancellableBarrier.OnlyReleasedReturn | delete-me/cancellable_barrier.hpp:84-87 | with at most `needed` threads, a woken thread returns if and only if its round is finished |
| CancellableBarrier.SomebodyIsAwake | delete-me/cancellable_barrier.hpp:70-89 | with exactly `needed` threads, they are never all asleep |
| CancellableBarrier.ExtraThreadMissesRelease | delete-me/cancellable_barrier.hpp:70-89 | for every `needed` of at least 2 and every larger number of threads, a run after which a thread sleeps although its round has fallen |
| CancellableBarrier.Barrier.Wait | delete-me/cancellable_barrier.hpp:70-88 | a call up to its return or first sleep is the step of the transition system |
| Semaphore.NextInv | delete-me/semaphore.hpp:50-68 | posts, waits, spurious wake-ups and late arrivals keep waiter count and wake-up invariant |
| Semaphore.ValueIsExact | delete-me/semaphore.hpp:50-68 | the value is the calls of post less the returns from wait, and `waitercount` the calls of wait less the returns, counted along the run |
| Semaphore.ReturnTakesUnit | delete-me/semaphore.hpp:59-68 | a thread that has the mutex returns if and only if the value is positive, and then lowers it by exactly one; otherwise it sleeps and takes nothing |
| Semaphore.InsideIsExact | delete-me/semaphore.hpp:50-68 | the threads asleep or woken are exactly those that have called wait once more than they have returned, and `waitercount` is their number |
| Semaphore.WakesOnly | delete-me/semaphore.hpp:50-68 | a sleeper wakes exactly by a signal that it gets or of itself, and stays awake until it has the mutex |
| Semaphore.NoLostWakeup | delete-me/semaphore.hpp:50-68 | if a thread is asleep, at least `semvalue` threads are awake and on their way to the mutex; if none is, the value is zero |
| Semaphore.MonitorSemaphore.Post | delete-me/semaphore.hpp:50-57 | post signals exactly if there is a waiter, and is the step of the transition system |
| Semaphore.MonitorSemaphore.Wait | delete-me/semaphore.hpp:59-68 | wait up to its return or first sleep is the step of the transition system |
| ThreadPoolRuns.JoinMeansDone | delete-me/thread_pool.hpp:234-308 | when join returns normally, as many tasks have been started and counted as launched, each has been run, the queue is empty, all workers are free, and the exceptions that tasks have thrown, worker by worker and in the order in which they were queued, are those that earlier joins have thrown |
| ThreadPoolRuns.ThrownInOrder | delete-me/thread_pool.hpp:247-297 | the exceptions thrown by joins followed by those in the queue are those thrown by tasks, in the order of lines 251-254 |
| ThreadPoolRuns.RaisedArePushed | delete-me/thread_pool.hpp:247-255 | the exceptions thrown by the tasks of a worker are those it has queued, in order, and the one it is about to queue |
| ThreadPoolRuns.TurnExactly | delete-me/thread_pool.hpp:286-307 | a turn of join throws the oldest exception that no join has thrown if there is one, returns if there is none and as many tasks are counted as launched, and sleeps otherwise |
| ThreadPoolRuns.WaitedForEmpty | delete-me/thread_pool.hpp:281-286 | whoever is at the mutex in join has seen the task queue empty since its call |
| ThreadPoolRuns.StartsInOrder | delete-me/thread_pool.hpp:234-279 | tasks are started in the order in which they were launched |
| ThreadPoolRuns.RunsOnce | delete-me/thread_pool.hpp:234-265 | no task is run twice |
| ThreadPoolRuns.Accounting | delete-me/thread_pool.hpp:234-308 | each launched task is in exactly one of queue, one worker and done, and has been run if it is done; `tasks_completed` is the number of those |
| ThreadPoolRuns.SingleJoinerNotForgotten | delete-me/thread_pool.hpp:257-304 | with one joiner, while it sleeps unsignalled there is no exception pending and a task is unfinished |
| ThreadPoolRuns.NeverForgottenIff | delete-me/thread_pool.hpp:234-308 | in all runs every sleeping joiner has no exception pending and a task unfinished, if and only if there is at most one joiner or no worker |
| ThreadPoolRuns.SecondJoinerForgotten | delete-me/thread_pool.hpp:257-307 | for any number of workers and two joiners or more, a run after which a joiner sleeps although all tasks are completed, all workers free and `waiting_on_join` false |
| ThreadPoolRuns.StaysAsleep | delete-me/thread_pool.hpp:257-304 | once `waiting_on_join` is false, a sleeping joiner stays asleep over any further run of launches, completions and turns of other joins, until there is a new join, an exception or a spurious wake-up |
| ThreadPool.Pool.CompleteTask | delete-me/thread_pool.hpp:257-265 | counting a task signals exactly if a join waits and this was the last task |
| ThreadPool.Pool.JoinTurn | delete-me/thread_pool.hpp:288-307 | a turn of the loop throws the oldest exception, or returns if all tasks are counted, or sleeps |
| AtomicFloat.Linearises | akl/atomic.hpp:259-335 | each call takes effect once, at its one successful compare-and-swap; performed one after the other in that order, the calls give the word, and `inc` and `dec` return the value after their own operation, `inc_ret_last`, `dec_ret_last` and `exchange` the value before it |
| AtomicFloat.CallsAreBegun | akl/atomic.hpp:259-335 | the calls are those begun, in order, each with its own operation |
| AtomicFloat.ValueSinceExchange | akl/atomic.hpp:259-335 | the word is what the last exchange has stored plus all increments less all decrements that took effect after it, modulo 2^32 |
| AtomicFloat.RetryMeansProgress | akl/atomic.hpp:262-265 | lock-freedom: a swap fails only if another call has taken effect since the value was read |
| AtomicFloat.FinishesAlone | akl/atomic.hpp:259-335 | from any state a call left alone is done after at most three accesses, and after two exactly unless it is an `inc` or `dec` with a stale value, which loads again |
| AtomicFloat.RealTimeOrder | akl/atomic.hpp:259-335 | a call that is done before another begins comes before it in that order |
| AtomicFloat.Conservation | akl/atomic.hpp:259-330 | without exchanges the word is the initial value plus all increments less all decrements, modulo 2^32 |
| AtomicFloat.Word.Update | akl/atomic.hpp:259-330 | whatever other threads store between load and swap, the retry loop ends when they stop, has added or subtracted once, modulo 2^32, from the value then in the word, and returns the new value or with `last` the old one |
| AtomicFloat.Word.SwapIn | sync.c:59-78 | the same for the exchange loop, which retries with the value it has found |

## Left out

- QueuedRwLockExclusion.ExclusionIfSwapsAtOnce: exclusion is stated under the assumption that lines 131 and 133 are not separated, because it is false without it.
- Threads of the lock classes: requests and threads are indices with a program counter, and the classes do one access at a time, so the control flow of a call is in the order of the program counters and not in one method body; requests of the queue lock are records in a sequence and not heap objects.
- Weak memory, scheduling fairness and starvation: memory is sequentially consistent, and progress is stated as "somebody can move".
- queued_rw_lock: the padding byte of the 32-bit state word, which lines 91-95 leave uninitialised, and the width of `reader_count`.
- lockfree_push_back: `query`, `query_unsafe` and `set_size`; how far `resize` grows and what it puts into new cells is left open; `idx` is unbounded; what else can happen with more than 65536 pushes in flight.
- deferred_rwlock: what happens after a call that went wrong; the spinlock around each call; a request that is used again after it has finished counts as a new one.
- spinrwlock: `unlock` and the `writing` flag, which `wrunlock` clears after it has released the lock (lines 58-59).
- cancellable_barrier: `cancel` and `resize_unsafe`, which write without the mutex.
- semaphore: the wrapper around POSIX semaphores, the assertions of the destructor, and overflow of `semvalue`.
- thread_pool: `resize`, CPU affinity, virtual thread ids and destruction; the blocking queue is not part of this model and stands as a first-in first-out sequence that can be seen empty.
- akl/atomic.hpp: the integer and double classes (the double `inc` subtracts, line 385); float addition is the addition of bits that akl/float.h makes it, and copies of floats are taken to preserve bits.
- thread_group, conditional timeouts, kernel shims, pthread wrappers, logging, memory management and build files.
