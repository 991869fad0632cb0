# The object pools of the POSIX OSAL, verified

The OSAL keeps its tasks, mutexes and binary semaphores in three fixed-size pools. An object is
named by a 32-bit id that packs its type, a generation stamp and its slot index. A short table lock
protects each pool; the native pthread and semaphore objects in the slots are used outside that
lock, and `AOS_SemPost` takes no lock at all. This project models the pools, proves what every
interleaving of API calls keeps, and proves the arithmetic of ids, priorities and deadlines.

## How the model is built

| files | what they model |
|---|---|
| `Common`, `Ids`, `Table`, `Names` | status codes and C integer widths; the id word and its serial; what the three pools share: the two scans of Create, validation, and the table as a dictionary; a name that is not taken |
| `MutexModel`, `MutexProperties`, `MutexUnlock`, `MutexPool`, `MutexCalls` | `aos_mutex.c` |
| `SemModel`, `SemProperties`, `SemTheorems`, `SemRules`, `SemDictionary`, `SemPool`, `SemCalls` | `aos_sem.c` |
| `Priority`, `TaskModel`, `TaskProperties`, `TaskReaping`, `TaskRuns`, `TaskDictionary`, `TaskPool`, `TaskCalls` | `aos_task.c` |
| `Time` | the deadlines, `AOS_TimeGet`, `AOS_TaskDelay` |

For each pool, `...Model` is a transition system over any number of slots and threads. One action is
one section under the table lock, one atomic access, or one native call; every list of actions is a
schedule (`Exec`), because an action that is not possible leaves the state alone. `...Properties`
proves an invariant for every action, lifts it to every run that keeps the callers' rules
(`InContract`), and derives the main results. `...Pool` is the imperative form: a class with the
slot arrays, whose methods do the stores of the C code in its order; each is proved to compute
exactly the step of the model, so the results about runs hold of the methods. `...Calls` puts the
sections of one API call together again, with any run of other threads between them.

The C slot struct is split in two arrays: `hdrs` (in_use, id, serial, name, creator) and `cells` (the
rest, with the state of the native object). A header's `gen`, the generations kept in program
counters, the program counters themselves, the semaphore pool's `lock` and the task pool's set `lost`
are history, as are `keySet` and `given` of a native thread: they record the run and no code branches
on them. A name is the sequence of its bytes. Pool sizes are symbolic up to 65536. `uint32_t` and
`uint8_t` arithmetic wraps explicitly; a run has fewer than 2^32 - 2 threads, so the reference count
itself never wraps. Atomics are sequentially consistent.

## What is assumed of the environment and of callers

Native calls return what POSIX.1-2008 allows, chosen freely: a native lock succeeds only on a free
mutex; a native unlock returns 0 to the owner and `EPERM` to anybody else while the mutex is
initialised, and anything at all once it has been destroyed; `sem_wait` consumes a positive count and
may return `EINTR` any number of times; `sem_destroy` may succeed or fail in any state;
`pthread_mutex_destroy` succeeds on an initialised mutex that is neither owned nor waited for;
`pthread_join` succeeds only on a thread that has terminated and may fail at any time;
`pthread_cancel` may fail. A task can be cancelled, or a caller from outside the pool abandoned,
inside `pthread_join`, `sem_wait` and `sem_timedwait`. `pthread_setspecific` may fail. `pthread_equal`
tells the truth about a thread that has not been joined and may say anything about one that has,
since its `pthread_t` may be in use again. `SEM_VALUE_MAX` is the least value POSIX permits, 32767.

The rules that runs keep are `Allowed` in each model. The headers do not state all of them, so each
comes with a lemma that shows what happens without it, as an exact condition where there is one:

* Mutexes and semaphores: Create does not take a slot whose Delete is still in flight. A new object
  survives if and only if the rule is kept (`MutexProperties.CreateSurvivesIff`,
  `SemRules.CreateSurvivesIff`).
* Mutexes: a native unlock of a destroyed mutex, which POSIX leaves undefined, does not report success.
  The reference counts stay right if and only if this holds (`MutexUnlock.AccountingKeptIff`). A rule
  for callers makes it unnecessary: if no Unlock of a slot is between its validation and its native
  unlock when a Delete passes the reference test, no destroyed mutex is ever unlocked
  (`MutexUnlock.UnlocksMeetTheirMutex`).
* Semaphores: no Post is past its id check when `AOS_SemDelete` clears the id
  (`src/include/aos_sem.h:73-77`). A Post can go on to a destroyed semaphore or to a later generation if
  and only if the rule is broken (`SemRules.PostRuleIsExact`).
* Tasks: an id is passed to Join, Delete and SetPriority only after its Create returned. Until then,
  and only until then, they would get another thread's `pthread_t`
  (`TaskProperties.StoredThreadIff`, `TaskReaping.JoinBeforeCreateReturns`).
* Tasks: a task is not deleted by another thread while a Join or another Delete of it is under way. For
  Join this is documented (`src/include/aos_task.h:61-64`). A Delete that finds the claim taken frees a
  thread nobody has joined if and only if the claim was lost or the other call has not come back from
  the native join (`TaskReaping.DeleteFreesUnjoinedIff`); two Deletes in their last sections collide
  if and only if the slot's serial has come round in between (`TaskReaping.LateFreeActsIff`).
* Tasks: with real-time scheduling, the priority of a task whose thread has been joined is not set;
  the second clause of `TaskProperties.StoredThreadIff` says what the native call would get.

## What the proofs found

* A Create that runs while a Delete of the lowest free slot is between its two sections gets that
  slot, and the pending Delete then destroys or wipes the new object. A mutex slot whose id is
  wiped that way stays in use for ever, and no id is accepted for it.
* `AOS_MutexUnlock` validates without taking a reference. For the owner this is sound, always. For
  any other thread it never is: whoever owned the mutex or held references, the others have a run
  that destroys it before the native unlock.
* The serial takes 255 values, as it skips zero. An id is refused through 254 re-creations of its
  slot and the 255th issues it again; the comment at `src/include/aos_osal.h:82-86` says 256. For
  tasks, Creates that fail in `pthread_create` count as well.
* The roll-back of `AOS_SemDelete` does not look at names: it leaves two semaphores with one name
  exactly if a Create has taken the name meanwhile.
* A task's claim to be joined can be lost, with no caller breaking a rule: when a joining task is
  itself deleted while it waits in `pthread_join`, when `pthread_join` fails, and when a task tries to
  delete itself, which is refused only after the claim has been set. A later Delete then frees the
  slot at once, though nobody has joined the thread and it may be running; that happens if and only
  if the claim was lost. Such a thread can go on to overwrite the state of the slot's next task, which
  is then reported as exited while it runs, and a thread that had not yet read its entry function
  calls NULL. All this can happen from the initial state of every pool of two or more slots. So the
  order UNUSED, STARTING, RUNNING, EXITED holds for a slot until the first time this happens.
* `AOS_TaskDelete` compares the caller with the stored `pthread_t` even when that thread has been
  joined. If the same `pthread_t` has gone to another task, that task's Delete is refused with
  INVALID_PARAM and the slot stays in use.
* The priority map keeps the order of all 32 levels if and only if the native range has at least 32
  levels and 31 times its width is below 2^32.
* A task cancelled inside `AOS_SemWait` or `AOS_SemTimedWait` never drops its reference: that
  semaphore can never be deleted again.
* Empty task names are accepted, while empty mutex and semaphore names are not.

## Model

| member | source | states |
|---|---|---|
| SemProperties.TokenConservation | src/os/posix/src/aos_sem.c:530-558 | In every reachable state of a live semaphore, flag = native count + posters between swap and sem_post + waiters between sem_wait and their store, and the sum is at most 1: the token is never lost, doubled or overflowed |
| SemProperties.StepFollowsAutomaton | src/os/posix/src/aos_sem.c:336-351 | Every step that leaves a slot live is an edge of the cycle Empty, Posted, Full, Taking, Empty or no move in it, and each edge is taken only from its source phase |
| SemProperties.TokenMoves | src/os/posix/src/aos_sem.c:532-557 | The four actions that move the token (swap, sem_post, native wait, clearing store) take exactly their own edge |
| SemProperties.TokenStays | src/os/posix/src/aos_sem.c:125-161 | No other action, by any thread, in any slot, changes the phase of a live semaphore |
| SemTheorems.FillsAndDrainsAlternate | src/os/posix/src/aos_sem.c:532-551 | Over any run inside one generation, swaps of successful Posts and clearing stores of successful waits strictly alternate, and the flag tells which is next |
| SemTheorems.RefusalsMatchPhase | src/os/posix/src/aos_sem.c:380-406 | A Post past its check gets INVALID_STATE exactly when the phase is not Empty; the native call of a TryWait can fail with EAGAIN exactly when the phase is not Full, and the caller then gets BUSY; it can get the token exactly when it is |
| SemTheorems.NativeWaitIsAnswered | src/os/posix/src/aos_sem.c:340-358 | In every state with the invariant a wait call comes back with the token, BUSY, TIMEOUT or GENERIC exactly as its native call returned 0, EAGAIN, ETIMEDOUT or another error |
| SemProperties.ReferenceAccounting | src/os/posix/src/aos_sem.c:125-161 | ref_count is the number of calls inside Wait, TryWait and TimedWait plus the cancelled ones that never dropped theirs, and never exceeds the thread count |
| SemProperties.EveryUseIsSound | src/os/posix/src/aos_sem.c:594-619 | In every run in contract each native wait, swap, sem_post, clearing store and release works on the initialised semaphore of the generation validated; sem_destroy meets nobody in the slot; sem_post cannot overflow; Post's roll-back is never entered; the guard in release never fires |
| SemProperties.InvMakesUsesSound | src/os/posix/src/aos_sem.c:546-557 | The same for one step from any state with the invariant |
| SemProperties.PublishedAtEveryStore | src/os/posix/src/aos_sem.c:257-308 | At every single store of every Create, Delete and roll-back, a non-zero id means in_use, an initialised native semaphore and state, the id packed from type, serial and index, and no other slot with that id |
| SemProperties.PostAgreesWithLookup | src/os/posix/src/aos_sem.c:504-528 | While the table lock is free, Post's lock-free check accepts exactly the ids, with the same slot, that the locked validation accepts |
| SemProperties.StepKeepsInv | src/os/posix/src/aos_sem.c:164-662 | Every action of every API call, at store granularity in Create and Delete, keeps the pool invariant |
| SemProperties.RunKeepsInv | src/os/posix/src/aos_sem.c:164-662 | So does every run in contract |
| SemProperties.InitHasInv | src/os/posix/src/aos_sem.c:59-80 | The zeroed pool has the invariant |
| SemTheorems.StoresCreate | src/os/posix/src/aos_sem.c:257-312 | sem_init and the seven single stores of Create, uninterrupted, leave exactly the new slot: the header Issue gives, the count and flag of the initial state, no reference, the lock free |
| SemTheorems.CancelledWaiterPinsForEver | src/os/posix/src/aos_sem.c:336-359 | After a cancellation inside the native wait, in every continuation the same object stays published and every Delete of it is refused with BUSY |
| SemRules.PostRuleIsExact | src/os/posix/src/aos_sem.c:602-619 | From a Delete that has just cleared an id there is a continuation in which a Post sem_posts a destroyed semaphore or a later generation if and only if a Post was past its id check in the slot, whether the semaphore was empty or full |
| SemRules.PostInFlightIsMisplaced | src/os/posix/src/aos_sem.c:526-546 | The run in every case: the Post has swapped, or swaps at once, or waits until every other Delete is finished, every lower slot filled and its own slot created again |
| SemRules.CreateSurvivesIff | src/os/posix/src/aos_sem.c:614-659 | A semaphore just created keeps its header, its native semaphore and its accepted id through every in-contract run without its Delete if and only if no Delete of the slot was in flight |
| SemRules.IdPersists | src/os/posix/src/aos_sem.c:594-612 | A published id keeps its slot and header through every run without a Delete of it |
| SemRules.DeleteSpoilsNewSemaphore | src/os/posix/src/aos_sem.c:614-659 | The run that shows it, in each phase of the pending Delete: the native semaphore is destroyed, the name wiped, or the old id put back |
| SemCalls.WaitCall | src/os/posix/src/aos_sem.c:318-489 | A whole Wait, TryWait or TimedWait of a valid id, with any runs of other threads inside and any number of native calls interrupted: same object throughout; SUCCESS met Full, took the token and then left Empty; BUSY, TIMEOUT and GENERIC each exactly for their native error; a TryWait whose native call does not break succeeds exactly if it met Full and is BUSY if not |
| SemCalls.WaitReturns | src/os/posix/src/aos_sem.c:351-358 | Its last section drops exactly one reference, leaves the phase and returns the status |
| SemCalls.PostCall | src/os/posix/src/aos_sem.c:491-561 | A whole Post of a valid id under interference: INVALID_STATE if and only if the swap met a phase other than Empty; otherwise it ends with SUCCESS and phase Full, on the object it validated |
| SemCalls.FailedPostRollsBack | src/os/posix/src/aos_sem.c:546-558 | Should sem_post fail, the flag is put back and the call returns GENERIC |
| SemCalls.DeleteAnswers | src/os/posix/src/aos_sem.c:575-600 | INVALID_ID exactly for an id that Post does not accept, BUSY exactly while some call holds a reference, and otherwise the Delete goes on |
| SemCalls.DeleteCall | src/os/posix/src/aos_sem.c:619-661 | A Delete whose sem_destroy succeeds, under interference, returns SUCCESS and leaves the slot free, empty but for its serial, its id refused |
| SemCalls.CreateBeginAnswers | src/os/posix/src/aos_sem.c:185-263 | Each answer of Create, by the exact condition on its arguments, the initial state 0 or 1 and a name of 1 to 19 bytes among them, and on the table |
| SemCalls.CreateEnds | src/os/posix/src/aos_sem.c:277-315 | Whatever others did during a Create, its last store leaves the slot with the name, creator and initial state asked for, under its own id, and SUCCESS is returned |
| SemCalls.FirstStoreStamps | src/os/posix/src/aos_sem.c:270-283 | The serial of that id is the next one, whatever others do after the first store |
| SemCalls.WindowIsPrivate | src/os/posix/src/aos_sem.c:609-659 | Between the sections of a Delete no other thread changes the slot in any way |
| SemCalls.WindowOpens | src/os/posix/src/aos_sem.c:609-617 | Delete's two stores take away the id and in_use and nothing else |
| SemCalls.RollBackRestores | src/os/posix/src/aos_sem.c:622-642 | A Delete whose sem_destroy fails puts the slot back exactly as it was, with any runs of other threads between its sections, and returns BUSY or GENERIC as the errno says |
| SemDictionary.PoolIsADictionary | src/os/posix/src/aos_sem.c:164-316 | In every reachable state every action acts on the published ids as on a capacity-n dictionary: Create answers from it and its last store inserts one entry under an unused id, Delete's first store removes the entry, the roll-back puts it back, Wait and Post refuse exactly the ids not in it, nothing else changes it |
| SemDictionary.PostAcceptsIsMembership | src/os/posix/src/aos_sem.c:504-528 | Post's check is membership in that dictionary at every moment, also inside a Create or Delete |
| SemDictionary.NamesStayDistinctIff | src/os/posix/src/aos_sem.c:220-253 | Over every run in contract the names in use are pairwise distinct at every moment if and only if every roll-back of a Delete finds its name free |
| SemDictionary.NamesStayDistinct | src/os/posix/src/aos_sem.c:220-253 | Then they are distinct whenever the table lock is free |
| SemDictionary.RollBackKeepsNamesIff | src/os/posix/src/aos_sem.c:622-634 | A roll-back keeps the names distinct if and only if no semaphore in use has taken the name |
| SemDictionary.NamesFit | src/os/posix/src/aos_sem.c:198-206 | Over every run in contract, at every store, the name of every published semaphore has 1 to 19 bytes |
| SemDictionary.StaleIdOverRuns | src/os/posix/src/aos_sem.c:270-283 | A published id, after any history with k re-creations of its slot, passes Post's check if and only if the slot is published and k is a multiple of 255 |
| SemPool.Pool.constructor | src/os/posix/src/aos_sem.c:59-80 | The pool starts as the model's initial state |
| SemPool.Pool.Validate | src/os/posix/src/aos_sem.c:82-123 | SUCCESS with a slot exactly when the table lookup finds that slot, INVALID_ID exactly when it finds none |
| SemPool.Pool.CreateBegins | src/os/posix/src/aos_sem.c:164-263 | With its two scan loops it computes the model's first step, up to sem_init with the lock held |
| SemPool.Pool.CreateStores | src/os/posix/src/aos_sem.c:277-315 | Computes each of the seven stores on its own, so that a Post may come in before any of them |
| SemPool.Pool.Create | src/os/posix/src/aos_sem.c:164-316 | Uninterrupted, it creates in the lowest free slot an id that Post accepts, or returns the model's refusal and changes nothing |
| SemPool.Pool.AcquireReference | src/os/posix/src/aos_sem.c:125-149 | Computes the model's acquire step |
| SemPool.Pool.NativeWaitLoop | src/os/posix/src/aos_sem.c:380-386 | The EINTR loop ends with the first return that is not EINTR, and consumes at most once |
| SemPool.Pool.NativeWaitEnds | src/os/posix/src/aos_sem.c:340-356 | Takes one token, or is on the way to BUSY, TIMEOUT or GENERIC exactly as the native call returned |
| SemPool.Pool.ClearFlag | src/os/posix/src/aos_sem.c:346-349 | The clearing store leaves the semaphore in phase Empty |
| SemPool.Pool.ReleaseReference | src/os/posix/src/aos_sem.c:151-161 | Always lowers the count by exactly one |
| SemPool.Pool.PostValidates | src/os/posix/src/aos_sem.c:504-528 | Computes the lock-free check |
| SemPool.Pool.PostSwaps | src/os/posix/src/aos_sem.c:530-544 | Computes the swap; INVALID_STATE if and only if the phase was not Empty |
| SemPool.Pool.NativePostSucceeds | src/os/posix/src/aos_sem.c:546-560 | From every state with the invariant sem_post succeeds and leaves count 1 |
| SemPool.Pool.DeleteClearsId | src/os/posix/src/aos_sem.c:575-612 | Computes Delete up to the store that clears the id, with BUSY and INVALID_ID |
| SemPool.Pool.DeleteClearsInUse | src/os/posix/src/aos_sem.c:614-617 | Computes the second store and the unlock |
| SemPool.Pool.NativeDestroyReturns | src/os/posix/src/aos_sem.c:619-622 | Computes the outcome of sem_destroy, success or either failure |
| SemPool.Pool.DeleteCleansUp | src/os/posix/src/aos_sem.c:649-661 | Computes the final section |
| SemPool.Pool.RollBackSetsInUse | src/os/posix/src/aos_sem.c:624-627 | Computes the first store of the roll-back |
| SemPool.Pool.RollBackSetsId | src/os/posix/src/aos_sem.c:629-641 | Computes the second store of the roll-back |
| SemPool.Pool.GetInfo | src/os/posix/src/aos_sem.c:664-692 | Answers for exactly the ids Post accepts, with the name and creator of that slot |
| MutexProperties.ReferenceAccounting | src/os/posix/src/aos_mutex.c:99-135 | In every state reachable in contract ref_count of a slot is 1 for an owner plus the calls holding a reference not handed over, and at most threads + 1 |
| MutexProperties.EveryUseIsSound | src/os/posix/src/aos_mutex.c:329-365 | In every run in contract each native lock works on the initialised mutex of the generation validated; native unlock succeeds exactly for who owned it at validation, on that generation; the guard in release never fires; pthread_mutex_destroy meets no owner and no waiter, so the roll-back of Delete is never entered |
| MutexProperties.InvMakesUsesSound | src/os/posix/src/aos_mutex.c:559-594 | The same for one step from any state with the invariant |
| MutexProperties.StepKeepsInv | src/os/posix/src/aos_mutex.c:138-615 | Every action of every API call keeps the pool invariant |
| MutexProperties.RunKeepsInv | src/os/posix/src/aos_mutex.c:138-615 | So does every run in contract |
| MutexProperties.InitHasInv | src/os/posix/src/aos_mutex.c:46-57 | The zeroed pool has the invariant |
| MutexProperties.OwnerPinsTheId | src/os/posix/src/aos_mutex.c:351-356 | From a successful lock to the owner's native unlock, whatever others do, Deletes of the id included, the mutex stays owned and the id valid |
| MutexProperties.IdPersists | src/os/posix/src/aos_mutex.c:531-574 | An id in use stays valid for the same slot and generation through every run without a Delete of it |
| MutexProperties.DeleteIsBusyIff | src/os/posix/src/aos_mutex.c:556-565 | Delete of a valid id is refused with BUSY if and only if the mutex is owned or some call holds a reference; so BUSY does not mean owned |
| MutexUnlock.UnlockWindowIsSoundIff | src/os/posix/src/aos_mutex.c:495-526 | With at least one other thread, in whatever call it is: the caller of Unlock owned the mutex when it validated if and only if in every run of the other threads its native unlock would find the validated object; otherwise they can destroy it first, whoever else owned it or held references |
| MutexUnlock.BringHome | src/os/posix/src/aos_mutex.c:495-526 | Any other thread can be brought out of its call to do so |
| MutexUnlock.AccountingKeptIff | src/os/posix/src/aos_mutex.c:510-526 | The reference counts are right at every moment of a run exactly if no native unlock of a destroyed mutex reports success in it |
| MutexUnlock.UnlocksMeetTheirMutex | src/os/posix/src/aos_mutex.c:495-511 | If no Delete passes its test while an Unlock of the slot is in its window, every native unlock, by anyone, is made on the initialised mutex of the generation validated |
| MutexUnlock.DrainOwner | src/os/posix/src/aos_mutex.c:351-356 | An owner, from wherever it is in the API, has a run home that unlocks and lets the mutex be destroyed |
| MutexUnlock.DrainRefs | src/os/posix/src/aos_mutex.c:358-364 | Calls holding references of an unowned mutex have a run that drops them all and lets it be destroyed |
| MutexProperties.CreateSurvivesIff | src/os/posix/src/aos_mutex.c:571-611 | A mutex just created stays valid through every in-contract run without its Delete if and only if no Delete of its slot was in flight |
| MutexProperties.DeleteWipesNewMutex | src/os/posix/src/aos_mutex.c:596-612 | The run that shows it: the pending Delete leaves the slot in use with id NONE |
| MutexProperties.SlotIsLostForEver | src/os/posix/src/aos_mutex.c:601-612 | A slot in use with id NONE stays so through every run, in contract or not: Create never takes it and no id is accepted for it |
| MutexProperties.PoolIsADictionary | src/os/posix/src/aos_mutex.c:138-327 | In every reachable state every action acts on the pool as on a capacity-n dictionary: Create's status and insert, Delete's remove, Lock and Unlock refuse exactly the ids not in it, nothing else changes it |
| MutexProperties.CreateIsInsert | src/os/posix/src/aos_mutex.c:186-327 | Create answers from the dictionary alone and inserts name and creator under an unused, non-zero id |
| MutexProperties.DeleteIsRemove | src/os/posix/src/aos_mutex.c:540-574 | Delete's first section removes exactly its id, or nothing |
| MutexProperties.NamesFit | src/os/posix/src/aos_mutex.c:167-175 | Over every run in contract the name of every mutex has 1 to 19 bytes |
| MutexProperties.NativeLockIsAnswered | src/os/posix/src/aos_mutex.c:351-364 | In every state with the invariant a lock call's result is the one its native call's return calls for |
| MutexProperties.StaleIdOverRuns | src/os/posix/src/aos_mutex.c:290-308 | An id in use now, after any history with k re-creations of its slot, is accepted if and only if the slot is in use and k is a multiple of 255 |
| MutexProperties.CreationsCountGenerations | src/os/posix/src/aos_mutex.c:295-302 | Over every run the generation of a slot grows by exactly the successful Creates that took it |
| MutexCalls.LockCall | src/os/posix/src/aos_mutex.c:329-484 | A whole Lock, TryLock or TimedLock under interference: same object throughout; SUCCESS, BUSY, INVALID_STATE, TIMEOUT and GENERIC each exactly for their native result; after SUCCESS the mutex was free and is the caller's, and a TryLock of a mutex another thread owns, whose native call does not break, is BUSY |
| MutexCalls.LockGivesUp | src/os/posix/src/aos_mutex.c:358-364 | After a failure the last section drops exactly one reference and leaves none of the caller's |
| MutexCalls.UnlockCall | src/os/posix/src/aos_mutex.c:486-529 | A whole Unlock under interference: SUCCESS exactly for the owner, the native mutex is free right after, and the release is done on the same object; anyone else gets INVALID_STATE for EPERM, which it is if the mutex is still initialised at the native unlock, and GENERIC for any other error |
| MutexCalls.DeleteCall | src/os/posix/src/aos_mutex.c:531-615 | A whole Delete that passes the reference test, under interference, always ends with SUCCESS: the slot is free, empty but for its serial, native mutex destroyed, id refused |
| MutexCalls.FailedDestroyRollsBack | src/os/posix/src/aos_mutex.c:579-594 | Should pthread_mutex_destroy fail, the slot is put back in use as it was, with BUSY for an owned or awaited mutex and GENERIC otherwise |
| MutexCalls.WindowIsPrivate | src/os/posix/src/aos_mutex.c:567-612 | Between the sections of a Delete no other thread changes the slot |
| MutexPool.Pool.constructor | src/os/posix/src/aos_mutex.c:46-57 | The pool starts as the model's initial state |
| MutexPool.Pool.Validate | src/os/posix/src/aos_mutex.c:59-97 | SUCCESS with a slot exactly when the table lookup finds that slot, INVALID_ID exactly when it finds none |
| MutexPool.Pool.Create | src/os/posix/src/aos_mutex.c:138-327 | With its two scan loops it computes the model's create step; on SUCCESS the id looks up to the lowest free slot |
| MutexPool.Pool.AcquireReference | src/os/posix/src/aos_mutex.c:99-123 | Computes the model's acquire step |
| MutexPool.Pool.NativeLockReturns | src/os/posix/src/aos_mutex.c:347-364 | The reference is handed to the owner, or is to be released with BUSY, INVALID_STATE, TIMEOUT or GENERIC exactly as the native lock returned |
| MutexPool.Pool.ReleaseReference | src/os/posix/src/aos_mutex.c:125-135 | Always lowers the count by exactly one |
| MutexPool.Pool.UnlockValidates | src/os/posix/src/aos_mutex.c:495-508 | Computes Unlock's validation, which takes no reference |
| MutexPool.Pool.NativeUnlockReturns | src/os/posix/src/aos_mutex.c:510-520 | Computes every return: SUCCESS to the validated owner, INVALID_STATE to others, and INVALID_STATE, GENERIC or anything else on a destroyed mutex |
| MutexPool.Pool.DeleteBegins | src/os/posix/src/aos_mutex.c:540-574 | Computes Delete's first section, with BUSY and INVALID_ID |
| MutexPool.Pool.NativeDestroySucceeds | src/os/posix/src/aos_mutex.c:576-594 | From every state with the invariant pthread_mutex_destroy succeeds |
| MutexPool.Pool.DeleteEnds | src/os/posix/src/aos_mutex.c:601-614 | Computes Delete's second section, which returns SUCCESS |
| MutexPool.Pool.GetInfo | src/os/posix/src/aos_mutex.c:617-645 | Reads the pool's dictionary |
| TaskReaping.ReapAtMostOnce | src/os/posix/src/aos_task.c:504-524 | In every interleaving, in or out of contract, Join and Delete together commit to at most one pthread_join per generation of each slot |
| TaskReaping.ClaimsAreClaimable | src/os/posix/src/aos_task.c:566-587 | A generation claimed anywhere in a run is, at its start, still ahead or present and unclaimed |
| TaskReaping.EachThreadJoinedOnce | src/os/posix/src/aos_task.c:24-31 | Over every run in contract no native thread, that is no stored pthread_t, is passed to pthread_join twice |
| TaskReaping.JoinBeforeCreateReturns | src/os/posix/src/aos_task.c:558-587 | Without the rule about fresh ids that fails: a Join before the Create returns that is not taken for a self-Join goes on to join an older thread, reaped or lost before, or none |
| TaskReaping.FreesUnreapedIff | src/os/posix/src/aos_task.c:534-545 | Over every run in contract a Delete frees a slot under a thread nobody has joined if and only if the claim on that generation was lost |
| TaskReaping.LostIff | src/os/posix/src/aos_task.c:504-532 | Claims are lost by exactly these actions: a failed pthread_join of Join or Delete, a caller cancelled inside it, and a self-Delete that is first to claim |
| TaskReaping.CleanRuns | src/os/posix/src/aos_task.c:534-545 | Over every run in contract that loses no claim, every slot's state is right and every thread whose slot was freed has been joined |
| TaskRuns.CancelledJoinerLosesTheSlot | src/os/posix/src/aos_task.c:583-591 | From any reachable state in which a task waits in a Join of another, deleting the joiner and then the other frees the latter's slot however far its thread has come, within the rules |
| TaskRuns.ARunningTaskCanBeLost | src/os/posix/src/aos_task.c:583-591 | So every pool of two or more slots has, from its initial state, a run in contract that frees the slot of a running task |
| TaskRuns.ZombieMisreports | src/os/posix/src/aos_task.c:303-309 | From any reachable state with a running task whose slot was freed, the slot's next task can be running while its state says EXITED |
| TaskRuns.ARunningTaskCanBeMisreported | src/os/posix/src/aos_task.c:303-309 | That too has a run in contract from the initial state |
| TaskRuns.ATaskCanCallNull | src/os/posix/src/aos_task.c:326-333 | From the initial state there is a run in contract in which a task's thread reads NULL as its entry function and calls it |
| TaskRuns.AStrangerCanBeRefused | src/os/posix/src/aos_task.c:512-519 | From the initial state there is a run in contract in which a task is joined, another is created, and its Delete of the first is refused with INVALID_PARAM, the slot staying in use |
| TaskReaping.StrangerIsRefusedIff | src/os/posix/src/aos_task.c:517-519 | Over every run in contract, a Delete by a caller other than the task can be refused with INVALID_PARAM if and only if the task's thread has been joined; the refusal changes nothing |
| TaskProperties.StepKeepsInv | src/os/posix/src/aos_task.c:386-594 | Every allowed action keeps the invariant of slots, callers and native threads |
| TaskProperties.RunKeepsInv | src/os/posix/src/aos_task.c:386-594 | So does every run in contract |
| TaskProperties.InitHasInv | src/os/posix/src/aos_task.c:204-243 | The zeroed pool has the invariant |
| TaskProperties.StateMovesInOrder | src/os/posix/src/aos_task.c:303-337 | Over every run in contract, until a lost claim has first let its slot be freed, a slot moves UNUSED, STARTING, RUNNING, EXITED, UNUSED only, each move by its one kind of action; it goes back from STARTING after a native failure of Create, and to UNUSED from anywhere by a Delete exactly when the claim was lost |
| TaskProperties.EveryUseIsSound | src/os/posix/src/aos_task.c:534-545 | In every run in contract the trampoline and the cleanup handler use their own generation if and only if its slot has not been freed under them, and what the trampoline reads is then its own Create's; native joins, cancels and priority changes, and the comparison in Join, get their slot's own thread, not yet joined; the comparison in Delete does exactly if the task has not been joined; a Delete frees a slot whose thread has been joined, or whose claim was lost |
| TaskProperties.RunsOwnBody | src/os/posix/src/aos_task.c:326-333 | A task that has entered its function, and whose slot was not freed under it, was entered with the function and argument it was given |
| TaskProperties.GivenByCreate | src/os/posix/src/aos_task.c:448-449 | That is what the request of its Create said, and it is not NULL |
| TaskProperties.GivenStays | src/os/posix/src/aos_task.c:471 | And it stays so through every run |
| TaskProperties.StoredThreadIff | src/os/posix/src/aos_task.c:471-483 | The pthread_t stored in a slot in use is its own thread's if and only if its Create has returned, and is one that may be joined or given a priority if and only if it has not been joined either |
| TaskProperties.JoinLeavesExited | src/os/posix/src/aos_task.c:583-593 | A successful Join leaves the id valid, the thread reaped, the claim taken and not lost, and the state EXITED unless an earlier thread of the slot was freed unjoined |
| TaskProperties.GetIdIsOwnId | src/os/posix/src/aos_task.c:671-677 | Inside a task whose slot was not freed under it the stored key is the id its Create gave out, which is valid and never zero, or zero if pthread_setspecific failed |
| TaskProperties.PriorityOrderIsFaithful | src/os/posix/src/aos_task.c:368-376 | After any run of Creates and SetPriorities, of two tasks with threads the one with the smaller AOS priority has the larger native one and conversely, and both lie in the range |
| TaskReaping.DeleteFreesUnjoinedIff | src/os/posix/src/aos_task.c:504-545 | In every state with the invariant, an uninterrupted Delete that pthread_equal does not stop frees the slot without joining if and only if it finds the claim taken; and it frees a thread nobody has joined if and only if the claim was lost or a Join or another Delete holds it and has not come back from the native join |
| TaskReaping.LateFreeActsIff | src/os/posix/src/aos_task.c:534-544 | A last section that comes after the slot was freed acts on the slot's present task if and only if the slot has been handed out a multiple of 255 times since |
| TaskReaping.SelfDeleteLosesTheSlot | src/os/posix/src/aos_task.c:512-519 | A refused self-Delete keeps the claim, and the next Delete frees the slot of the running task, both within the rules |
| TaskDictionary.CreateIsInsert | src/os/posix/src/aos_task.c:422-459 | Create answers from the dictionary alone (NAME_TAKEN before NO_FREE_IDS) and inserts the name under an unused, non-zero id |
| TaskDictionary.FreeIsRemove | src/os/posix/src/aos_task.c:534-545 | A finished Delete and a failed Create remove exactly the slot's own id from the dictionary |
| TaskDictionary.CallsLookUp | src/os/posix/src/aos_task.c:246-284 | Join, Delete and SetPriority refuse with INVALID_ID exactly the ids not in the dictionary |
| TaskDictionary.PoolIsADictionary | src/os/posix/src/aos_task.c:386-594 | In every reachable state every action acts on the pool as on a capacity-n dictionary: Create answers and inserts, a failed Create and a Delete remove their own id, Join, Delete and SetPriority refuse exactly the ids not in it, nothing else changes it |
| TaskDictionary.CreateAnswers | src/os/posix/src/aos_task.c:401-441 | Each answer of the first section of TaskCreate, by the exact condition on its arguments, a name of 0 to 19 bytes among them, and on the table |
| TaskDictionary.NamesFit | src/os/posix/src/aos_task.c:417-420 | Over every run every task name has at most 19 bytes |
| TaskCalls.CreateCall | src/os/posix/src/aos_task.c:422-483 | A whole Create whose native part succeeds, under interference: SUCCESS, the id valid, the slot with the name, stack size and priority asked for, the thread with the entry, argument and mapped priority |
| TaskCalls.CreateFailsCall | src/os/posix/src/aos_task.c:461-481 | A whole Create whose native part fails: INVALID_SIZE exactly for invalid attributes and CREATION_FAILED otherwise, the slot free again and the id refused |
| TaskCalls.StackSizeStays | src/os/posix/src/aos_task.c:451 | Over every run that leaves the task in its slot its stack size stays the same |
| TaskCalls.JoinAnswers | src/os/posix/src/aos_task.c:558-585 | INVALID_ID, INVALID_STATE, INVALID_PARAM, in this order, each by its exact condition; otherwise the claim is taken |
| TaskCalls.JoinCall | src/os/posix/src/aos_task.c:550-594 | A whole Join that takes the claim, under interference: SUCCESS with the thread reaped exactly if pthread_join returned 0, GENERIC if not, the id still valid and the claim taken |
| TaskCalls.DeleteAnswers | src/os/posix/src/aos_task.c:496-521 | INVALID_ID and INVALID_PARAM by their exact conditions, and whether the Delete goes on to reap or to free |
| TaskCalls.DeleteCall | src/os/posix/src/aos_task.c:486-548 | A whole Delete that takes the claim, under interference: if cancel and join each returned 0 or ESRCH it frees the slot, removes the id from the dictionary and returns SUCCESS; in every other case it returns GENERIC and the id is still in the dictionary |
| TaskCalls.DeleteTakenCall | src/os/posix/src/aos_task.c:512-547 | A whole Delete that finds the claim taken, under interference, frees the slot, removes the id and returns SUCCESS |
| TaskCalls.SetPriorityAnswers | src/os/posix/src/aos_task.c:629-657 | INVALID_PRIORITY, INVALID_ID, GENERIC and SUCCESS each by its exact condition; success sets the priority of the slot and of its own thread, every refusal leaves cells and threads unchanged |
| TaskDictionary.StaleIdOverRuns | src/os/posix/src/aos_task.c:442-447 | A task id, after any history in which its slot was handed out k more times, failed Creates included, is accepted if and only if the slot is in use and k is a multiple of 255 |
| TaskPool.Pool.constructor | src/os/posix/src/aos_task.c:204-243 | The pool starts as the model's initial state |
| TaskPool.Pool.Validate | src/os/posix/src/aos_task.c:246-284 | SUCCESS with a slot exactly when the table lookup finds that slot, INVALID_ID exactly when it finds none |
| TaskPool.Pool.Create | src/os/posix/src/aos_task.c:386-459 | With its two scan loops it computes the model's create step |
| TaskPool.Pool.CreateThreads | src/os/posix/src/aos_task.c:461-483 | pthread_create stores the thread and starts it at the mapped priority |
| TaskPool.Pool.CreateUndoes | src/os/posix/src/aos_task.c:474-481 | Computes the clean-up after a native failure |
| TaskPool.Pool.TrampolineSetsKey | src/os/posix/src/aos_task.c:319-321 | The key is the id of the thread's own generation, unless storing it fails or its slot was freed before |
| TaskPool.Pool.TrampolineRuns | src/os/posix/src/aos_task.c:326-333 | Computes the step to RUNNING; the entry function and argument it returns are its own Create's, unless its slot was freed under it |
| TaskPool.Pool.CleansUp | src/os/posix/src/aos_task.c:286-311 | The handler writes EXITED in its own generation, unless its slot was freed under it |
| TaskPool.Pool.JoinClaims | src/os/posix/src/aos_task.c:558-585 | Computes Join's locked section with its three refusals, for every answer of pthread_equal, in contract or not |
| TaskPool.Pool.JoinEnds | src/os/posix/src/aos_task.c:587-593 | SUCCESS with the thread reaped, or GENERIC with the claim lost, as pthread_join returns |
| TaskPool.Pool.DeleteClaims | src/os/posix/src/aos_task.c:496-521 | Computes Delete's first section for every answer of pthread_equal: the claim is set before the self test, and only an unclaimed task goes on to be reaped |
| TaskPool.Pool.DeleteCancels | src/os/posix/src/aos_task.c:523 | The Delete goes on to the join, remembering a failure exactly for an error other than ESRCH |
| TaskPool.Pool.DeleteJoins | src/os/posix/src/aos_task.c:524-531 | It goes on to free the slot exactly if both native calls returned 0 or ESRCH, and returns GENERIC otherwise; the thread is reaped exactly if the join returned 0, and its claim lost otherwise |
| TaskPool.Pool.DeleteFrees | src/os/posix/src/aos_task.c:534-547 | The slot is freed, under a joined thread exactly if the claim was not lost |
| TaskPool.Pool.SetsPriority | src/os/posix/src/aos_task.c:629-657 | Computes SetPriority, with each status tied to its exact condition |
| TaskPool.Pool.GetId | src/os/posix/src/aos_task.c:660-679 | Inside a task whose slot was not freed, SUCCESS with its own id, valid in the table; INVALID_ID and NONE for any other thread, and for a task whose key could not be stored |
| TaskPool.Pool.GetInfo | src/os/posix/src/aos_task.c:682-717 | Answers for exactly the ids in the dictionary, with that slot's name, stack size, priority and state |
| Priority.MapIsFaithfulIff | src/os/posix/src/aos_task.c:72-87 | The map is strictly decreasing on all 32 levels if and only if the range has at least 32 levels and 31 times its width does not wrap |
| Priority.MapIsEven | src/os/posix/src/aos_task.c:84-86 | Without wrap the map hits both ends, stays in the range, and its steps differ by at most one |
| Priority.MapIsExact | src/os/posix/src/aos_task.c:84-86 | A level is below the top by its share of the range, rounded down to whole native levels |
| Priority.EnoughLevelsIff | src/os/posix/src/aos_task.c:52-61 | A policy is taken exactly if its range has no errors and at least 32 levels |
| Priority.WrapBreaksOrder | src/os/posix/src/aos_task.c:85 | Where the unsigned product wraps between two levels, their order is lost |
| Priority.RtConfig.Configure | src/os/posix/src/aos_task.c:89-195 | RT gets enabled exactly when the probe succeeds on the first of FIFO and RR with enough levels; whenever it is enabled the range has at least 32 levels and the map is faithful unless the product wraps; each status is tied to its cause |
| Ids.IdPackBits | src/include/aos_osal.h:105-108 | The shifts and ors of AOS_IdPack compute the sum of the fields at their places |
| Ids.IdTypeBits | src/include/aos_osal.h:109 | The shift and mask compute the top 8 bits |
| Ids.IdSerialBits | src/include/aos_osal.h:110 | The shift and mask compute bits 23 to 16 |
| Ids.IdIndexBits | src/include/aos_osal.h:111 | The mask computes the low 16 bits |
| Ids.UnpackOfPack | src/include/aos_osal.h:105-111 | Unpacking gives back every packed triple |
| Ids.PackOfUnpack | src/include/aos_osal.h:105-111 | Packing gives back every 32-bit word, so packing is a bijection |
| Ids.PackIsInjective | src/include/aos_osal.h:78-80 | Ids are equal exactly when all three fields are, and an id with a type of at least 1 is never NONE |
| Ids.SerialClosedForm | src/os/posix/src/aos_mutex.c:295-302 | The serial of generation g is 1 + (g - 1) mod 255 |
| Ids.SerialsAlias | src/include/aos_osal.h:82-86 | Two generations share a serial if and only if they are a multiple of 255 apart |
| Table.ScanForName | src/os/posix/src/aos_mutex.c:186-201 | The first loop of Create finds whether a slot in use has the name |
| Table.ScanForFree | src/os/posix/src/aos_mutex.c:203-214 | The second loop finds the lowest free slot, or none |
| Table.LookupIsMembership | src/os/posix/src/aos_mutex.c:59-97 | Validation is membership in the dictionary, and the slot found holds the entry |
| Table.SoundMeansDistinct | src/os/posix/src/aos_mutex.c:302-308 | Ids in use are pairwise distinct and non-zero |
| Table.PoolsShareNoId | src/include/aos_osal.h:91-96 | No id is in the dictionaries of two pools of different types, and NONE is in none |
| Table.CapacityIsTableSize | src/os/posix/src/aos_mutex.c:216-222 | There is no free slot if and only if the dictionary has as many entries as the table |
| Table.CreateStatusFromDict | src/os/posix/src/aos_mutex.c:158-222 | Create's status follows from the arguments and the dictionary alone: bad arguments in the source's order, then some entry has the name, then the dictionary is full |
| Table.CreateAnswers | src/os/posix/src/aos_mutex.c:158-288 | Each answer of MutexCreate, by the exact condition on its arguments, a name of 1 to 19 bytes among them, and on the table |
| Table.FillInserts | src/os/posix/src/aos_mutex.c:302-319 | Filling a free slot inserts one entry |
| Table.RetireRemoves | src/os/posix/src/aos_mutex.c:567-571 | Taking a slot out of use removes exactly its id |
| Table.StaleIdIsAcceptedIff | src/include/aos_osal.h:82-86 | The id of generation g is accepted at generation g' if and only if the slot is in use and g' - g is a multiple of 255 |
| Time.DeadlinesAgree | src/os/posix/src/aos_mutex.c:441-459 | For every normalised time and every uint32 ms the div/mod deadline and the single-carry deadline agree, are normalised, are exactly ms later, and the nanosecond sum is at most 1998999999 |
| Time.AddMilliseconds | src/os/posix/src/aos_task.c:610-615 | The carry in place computes that deadline |
| Time.SleepUntil | src/os/posix/src/aos_task.c:617-619 | The EINTR loop ends at the first other return; if that is 0, the deadline has passed |
| Time.TaskDelay | src/os/posix/src/aos_task.c:601-622 | SUCCESS exactly when the last sleep returned 0, and then the clock has reached start + ms * 10^6 ns |
| Time.InterruptionsAreBounded | src/os/posix/src/aos_task.c:617-619 | If each interruption lets the clock advance, at most ms * 10^6 of them happen |
| Time.ReadingsShowTheDelay | src/os/posix/src/aos_posix.c:142 | AOS_TimeGet readings taken before and after a delay of ms differ by at least ms * 1000, despite truncation |
| Time.TimeUsIsMonotone | src/os/posix/src/aos_posix.c:142 | AOS_TimeGet never goes backwards on a monotonic clock |

## Left out

- TaskPool.Pool.CreateThreads: storing the pthread_t and starting the thread are one step, though POSIX lets the thread run first.
- SemPool.Pool.NativeWaitLoop: no other thread acts between the retries inside this method; SemCalls.WaitCall lets them.
- A native unlock of a destroyed mutex that reports success: only the pool's own fields are followed, though the platform may do anything.
- Memory orders: the acquire and release annotations are read as sequentially consistent accesses.
- Timed lock and timed wait: the deadline arithmetic is proved, but not the elapsed time, since CLOCK_REALTIME may jump; a failing clock_gettime is one of the ways the native call ends with GENERIC.
- Kernel behaviour: scheduling, priority inheritance, wake-up order, and threads that die while owning a mutex.
- Overflow of time_t and of the 64-bit microsecond count.
- AOS_Init, AOS_GetCapabilities and AOS_StrError: one-time set-up, platform queries and a lookup table.
- AOS_TaskYield, AOS_TaskExit, thread attributes and stacks: direct calls into the platform.
- The output pointer checks of the GetInfo and GetId calls: a null test and INVALID_POINTER.
- The programs under tests/: they drive the API and hold no logic of their own.
