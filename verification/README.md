# A verified model of the spawns task lifecycle

`spawns-core` lets a library spawn a future without knowing the async runtime. A spawned
task is shared by three kinds of users that run concurrently: the executor that polls or
drops it, the owner of its `JoinHandle`, and any number of holders of a cancel handle. They
meet in two lock-free or nearly lock-free cells. This project models those cells, the
driver that joins them, and the thread-local and process-wide state around spawning, and
proves what they guarantee over every run.

## How the model is built

| file | models |
|---|---|
| `JoinCell.dfy`, `JoinTheorems.dfy` | `Joint`: the atomic `stage` and the mutex-held `JoinResult`, as `wake`, `JoinHandle::poll` and `JoinHandle::drop` use them |
| `OneShot.dfy` | the atomic one-shot cell that `Joint` refines |
| `WakerSlot.dfy`, `Heap.dfy`, `SlotTheorems.dfy`, `SlotProgress.dfy`, `Cancellers.dfy` | `Cancellation`: the slot holding null, a boxed waker or CANCELLED, the heap of boxes, and any number of holders |
| `Lifecycle.dfy`, `LifecycleTheorems.dfy`, `LifecycleProgress.dfy` | `TaskFuture` driving both, and the end-to-end guarantees |
| `Interference.dfy`, `TaskMethods.dfy` | the methods of `task.rs` as written, with their loops and branches, run under interference |
| `RunningId.dfy` | task ids and the thread-local `RUNNING_ID` |
| `SpawnScope.dfy` | `enter` and `SpawnScope::drop` over the thread-local `SPAWNER`, and `spawn_with_name` |
| `Compat.dfy` | `pick_global`, `find_global`, `find_local`, `find_spawn` |

The concurrent part is a transition system, one atomic access per step. A state holds the
shared memory, the program point and locals of every actor, and history (what was
delivered, destroyed, woken, allocated, freed). A run is any sequence of enabled actions,
so every theorem over runs covers every interleaving, any number of polls, wakers and
cancellers, every result of the inner future, and a drop at any moment between polls.
`Lifecycle` is the product of the two cells and the driver, and its runs project onto runs
of each cell.

`stage` is loaded with Relaxed ordering. The model keeps all stores in modification order
and lets a load return any of them that is not older than what its actor last read or
wrote. Synchronisation through the mutex is not used to narrow that choice, so the model
admits at least the behaviours the program has.

`TaskMethods.Task` holds the state as a mutable field. Each method performs the atomic
accesses of the source in the source's order and branches on its own local variables; the
calls of `Interfere` let all other users move in between, as the field `environment`, an
arbitrary finite list of their turns, dictates, and no access can be made before the others
have had a turn since the last one. Dafny checks that each access is enabled where the method
performs it, that the loops then end, and that `trace` remains a run of `Lifecycle`. Every
call also accounts for what it adds to `trace` (`Took`, which `Interference.AccountedMeans`
spells out): steps of its own kind, and steps of other actors that were on offer, nothing
else. So a call that is left alone does everything itself (`Interference.LeftAlone`), and a
poll of a task that nobody cancels answers as the inner future does.

Ids, scopes and spawner selection are sequential or nearly so. `IdCounter`, `ThreadLocals`,
`Thread` and `GlobalCache` are classes updated in place, and `PickGlobal` is the source's
scanning loop.

## Assumptions

- One `JoinHandle` per task; its `clone` exists only in tests. It may be polled once after
  it returned Ready, which panics, and after a panic it is only dropped.
- The accesses of the cancellation slot interleave; all of them are Relaxed in the source,
  and nothing is claimed about weak-memory publication of what a box contains.
- A `Waker` is an identity with a log of wakes, paired with the number of the poll that
  supplied it. Output values and panic payloads are opaque.
- User code inside a waker or a destructor neither panics nor is modelled further; mutexes
  are not poisoned; scopes are not leaked.
- The list of compat entries is an arbitrary fixed sequence. What a local detector answers
  and what the environment holds are arbitrary at each call.

## What turned out conditional

- Ids are nonzero and distinct for exactly the first 2^64 - 1 spawns: `fetch_add` wraps, and
  the next id is 0, which `try_id` reports as no task (`RunningId.IdsUsableIff`). Two tasks
  share an id exactly when 2^64 divides their distance in the order of spawning
  (`RunningId.SameIdIff`), so ids are unique among running tasks unless a task outlives that
  many. The documentation of `Id` speaks of reclaiming ids; the code never does.
- The assertion in `SpawnScope::drop` does not catch every out-of-order drop
  (`SpawnScope.SharedSpawnerHidesDisorder` has an input). While drops have been in order, it
  catches one exactly when the innermost open scope has another spawner than the scope
  dropped (`SpawnScope.CaughtIff`), so all of them exactly when no other open scope shares
  the innermost one's spawner (`SpawnScope.AllCaughtIff`). Over a run, being free of panics
  and being last-in-first-out coincide at every point exactly when the first drop out of
  order, if there is one, does not share that spawner (`SpawnScope.DropOrderIff`). Whatever
  is missed, a panic-free run that closes every scope restores the initial spawner
  (`SpawnScope.PanicFreeRestores`), and at every point of it a spawner whose scopes are all
  closed is nowhere left behind (`SpawnScope.NothingDangles`). After a caught panic it may be
  (`SpawnScope.PanicLeavesDangling` has an input).
- With several global entries the documentation says that one is chosen at random. The code
  takes the last named one in link order, else the last unnamed one (`Compat.PickGlobal`).

## Model

| member | source | states |
|---|---|---|
| JoinTheorems.JointRefinesOneShot | spawns-core/src/task.rs:219-254 | every interleaving of `wake`, `poll` and `drop`, with every stale load of `stage`, is a run of the atomic cell whose events are their linearization points |
| OneShot.IsOneShot | spawns-core/src/task.rs:39-45 | the atomic cell completes at most once, is taken at most once, and every taking comes after the completion with that outcome |
| JoinTheorems.StepRefines | spawns-core/src/task.rs:232-253 | each step is a stutter or exactly the one atomic event assigned to it; a drop takes effect at its stage store |
| JoinTheorems.PollReturnsMatch | spawns-core/src/task.rs:625-657 | a poll returns Ready exactly when the atomic cell has been taken, with its outcome, and Pending only with its own waker registered |
| JoinTheorems.UnreachableArms | spawns-core/src/task.rs:243-248 | `wake` never finds Finished or Joined; a poll that loaded Finished never finds Empty or Joining; no "already detached" panic |
| JoinTheorems.NoLostJoinWakeup | spawns-core/src/task.rs:232-249 | the waker of a pending poll is in the slot, in the hands of `wake`, or woken; `wake` returns early only when the handle's drop has begun; at most one wake |
| JoinTheorems.DetachedInTheEnd | spawns-core/src/task.rs:613-620 | after both the drop and `wake` the slot is Detached, in every order of their steps |
| JoinTheorems.OutcomeConserved | spawns-core/src/task.rs:232-249 | the outcome is at each step in exactly one of: task, slot, handle, joiner, destroyed |
| JoinTheorems.StageNeverReturnsToRunning | spawns-core/src/task.rs:219-230 | no store of `stage` after the first is Running |
| JoinTheorems.NextPollReturnsOutcome | spawns-core/src/task.rs:641-653 | the first poll to complete after the outcome was published returns it, however stale the stage it loads |
| JoinTheorems.PollAfterReadyPanics | spawns-core/src/task.rs:636-654 | the first poll after Ready panics as already joined, on either path |
| JoinTheorems.StalePollDelivers | spawns-core/src/task.rs:625-657 | stale loads happen: a run from the start in which a poll begins after Finished was stored, loads Running, takes the slow path and delivers the outcome |
| JoinTheorems.StaleWakeCleansUp | spawns-core/src/task.rs:232-249 | and one in which `wake` loads Running after the handle was dropped, stores Finished last, and leaves the slot Detached and the outcome destroyed |
| SlotTheorems.BoxesOwnedOnce | spawns-core/src/task.rs:361-409 | every live box has exactly one owner among task, local of `update`, slot and winning canceller; no dead box is touched |
| SlotTheorems.FreedExactlyOnce | spawns-core/src/task.rs:412-420 | no box is freed twice, and once the slot is dropped every box allocated has been freed |
| SlotTheorems.TwoBoxesAtMost | spawns-core/src/task.rs:324-335 | however often the task is polled and whenever it is cancelled, at most two boxes are allocated |
| SlotTheorems.LatestWakerReached | spawns-core/src/task.rs:361-409 | the slot's box holds the latest registered waker, recycled or not; after CANCELLED exactly that waker has been woken, or is held by the winner |
| SlotTheorems.OneWinner | spawns-core/src/task.rs:361-383 | CANCELLED has exactly one winning compare-exchange |
| SlotTheorems.CancelledIsAbsorbing | spawns-core/src/task.rs:356-409 | once CANCELLED, the slot stays so, nobody wins again and no `update` succeeds |
| SlotTheorems.CancelReturnsCancelled | spawns-core/src/task.rs:361-383 | a call of `cancel` returns only with the slot CANCELLED |
| SlotTheorems.FailuresBounded | spawns-core/src/task.rs:361-409 | `update` loses at most one compare-exchange; `cancel` at most one per successful `update` during the call, and one more |
| SlotTheorems.PointerReturnsIff | spawns-core/src/task.rs:324-335 | in every run, a pointer a canceller has loaded is in the slot exactly when the number of successful updates since is even, and its first compare-exchange is won exactly then |
| SlotTheorems.PointerReturns | spawns-core/src/task.rs:361-409 | a run from the start in which an address leaves the slot and returns under a waiting canceller, which can then win with the waker stored last |
| Cancellers.CloneHolds | spawns-core/src/task.rs:608-610 | whenever there is a holder it can be cloned; until the clone is released it holds the slot, can cancel whenever it is not cancelling, and the slot is not dropped |
| Cancellers.HeldIsAlive | spawns-core/src/task.rs:412-420 | while anybody holds the slot it is not dropped, and the box in it is alive |
| Cancellers.AnyNumberContend | spawns-core/src/task.rs:361-383 | for every n there is a run from the start in which n callers have loaded the same pointer |
| Cancellers.OneWinsOthersLoseOnce | spawns-core/src/task.rs:361-383 | any of n contenders can win; however the rest is scheduled until all have returned, it is the only winner, every other has made exactly two turns, and the waker stored last has been woken once |
| Cancellers.LosesOnce | spawns-core/src/task.rs:367-381 | after CANCELLED, a caller that loaded a pointer loses exactly one exchange and returns at its next turn, whatever happens in between |
| SlotProgress.LoopsEnd | spawns-core/src/task.rs:361-409 | without new calls, the calls in flight take a bounded number of steps under every interleaving |
| SlotProgress.AllCallsReturn | spawns-core/src/task.rs:361-409 | run in any order for as long as any can move, the calls in flight all return within that bound, and leave CANCELLED if one was a `cancel` |
| Lifecycle.JoinProjection | spawns-core/src/task.rs:280-342 | a run of the whole task is a run of its result cell |
| Lifecycle.SlotProjection | spawns-core/src/task.rs:280-342 | a run of the whole task is a run of its cancellation slot |
| LifecycleTheorems.AtRest | spawns-core/src/task.rs:232-341 | at rest, cancelled or not: a finished task has woken a parked joiner; an unfinished one is parked, and if ever polled, its latest waker was woken if the slot is CANCELLED and otherwise is in the slot |
| LifecycleTheorems.NoHang | spawns-core/src/task.rs:315-341 | at rest after a `cancel` with a parked joiner: the task is over and the joiner's latest waker woken, or parked and the latest task waker woken, or never polled |
| LifecycleProgress.CallsEnd | spawns-core/src/task.rs:232-409 | everything in flight on a task, from all its users, takes a bounded number of steps under every interleaving |
| LifecycleProgress.RestIff | spawns-core/src/task.rs:232-409 | nothing in flight can move if and only if every call has returned |
| LifecycleProgress.CallsReturn | spawns-core/src/task.rs:232-409 | from any reachable state, whatever is in flight returns within that bound |
| LifecycleProgress.CancelSettles | spawns-core/src/task.rs:315-409 | once a cancel has begun, everything in flight returns within a bound, and then a parked joiner has been woken, or the task is parked with its latest waker woken, or was never polled |
| LifecycleProgress.SlotCanBeReclaimed | spawns-core/src/task.rs:412-420 | with the task and the handle gone and no call in flight, giving back the remaining references, in some order, ends with the slot dropped |
| LifecycleProgress.CanBeWoundUp | spawns-core/src/task.rs:304-420 | from every reachable state some run ends with the task, the handle and the slot dropped, every box freed and the result cell Detached |
| LifecycleTheorems.NoLostCancelWakeup | spawns-core/src/task.rs:324-336 | CANCELLED with the task parked: the waker of the latest poll, and no older one, is woken or held by the winner |
| LifecycleTheorems.PollAfterCancelFinishes | spawns-core/src/task.rs:317-334 | once CANCELLED, no poll short of its compare-exchange returns Pending, and the first poll to complete finishes the task |
| LifecycleTheorems.CancelBetweenPollsWins | spawns-core/src/task.rs:317-321 | a cancel that lands between polls keeps the inner future from ever being polled again and makes Cancelled the only possible outcome |
| LifecycleTheorems.CancelReachesJoiner | spawns-core/src/task.rs:304-341 | after a cancel, once the executor polls or drops the task, it is over as Cancelled and a parked joiner has been woken |
| LifecycleTheorems.OutcomeProvenance | spawns-core/src/task.rs:338-339 | Ok and Panicked reach the joiner only from the inner future, Cancelled only from a cancelled or dropped unfinished task |
| LifecycleTheorems.FinishedTaskIsJoined | spawns-core/src/task.rs:297-310 | a finished or dropped task leaves a live unjoined handle an outcome that its next completed poll returns |
| LifecycleTheorems.FutureDroppedFirst | spawns-core/src/task.rs:297-301 | the inner future is gone before the joiner can see a result, and is polled only while it is there and has not ended |
| LifecycleTheorems.FinishedExactlyOnce | spawns-core/src/task.rs:297-310 | `finish` runs at most once, and exactly once by the time the task is dropped |
| LifecycleTheorems.TaskRefinesOneShot | spawns-core/src/task.rs:280-342 | however the task is driven, its result cell behaves as the atomic one |
| LifecycleTheorems.NothingLeft | spawns-core/src/task.rs:412-420 | when everybody has let go, every box is freed once, the slot is Detached, and the outcome was delivered or destroyed once |
| TaskMethods.Task.Cancel | spawns-core/src/task.rs:361-383 | it does steps of `cancel` by this caller only; under any finite interference the retry loop ends, leaves CANCELLED, and fails at most as often as there were updates meanwhile plus once, never if left alone; if nobody else can have cancelled it is the winner and the waker stored has been woken |
| TaskMethods.Task.Update | spawns-core/src/task.rs:385-409 | either this poll's waker is stored with no exchange lost, or the slot is CANCELLED, at most one exchange was lost and the rejected box is freed; a call begun after CANCELLED is rejected, and one that nobody can cancel is accepted |
| TaskMethods.Task.Wake | spawns-core/src/task.rs:232-249 | no `unreachable!` arm; when it returns, a parked joiner is woken and a live handle has its outcome; it leaves early only if the handle is or can be dropped meanwhile; all steps are the task's own or others' on offer |
| TaskMethods.Task.PollHandle | spawns-core/src/task.rs:625-657 | Pending means this call's waker is registered and nothing was published at the call; Ready returns the task's outcome once; then a panic; without a publication before or meanwhile it is Pending, and it never cancels the task |
| TaskMethods.Task.DropHandle | spawns-core/src/task.rs:613-620 | the handle is closed, its reference to the slot given back, the slot is Detached if `wake` is through, and the task is not cancelled by it |
| TaskMethods.Task.DropTaskHandle | spawns-core/src/task.rs:546-550 | dropping an attached handle leaves the slot CANCELLED, by this very call if nobody else can have done it, with the stored waker woken |
| TaskMethods.Task.PollTask | spawns-core/src/task.rs:315-341 | for any inner result, doing steps of the task only: Pending leaves this poll's waker registered, Ready leaves the task over with the inner outcome, or Cancelled with the slot CANCELLED, and a parked joiner woken; if nobody has cancelled or can, the answer is the inner future's, Pending, Ok or Panicked |
| TaskMethods.Task.Finish | spawns-core/src/task.rs:297-302 | when it returns, the inner future is gone, the given outcome is published to a live handle and a parked joiner woken; the order of these is `LifecycleTheorems.FutureDroppedFirst` |
| TaskMethods.Task.DropTask | spawns-core/src/task.rs:304-310 | an unfinished task ends as Cancelled and a parked joiner is woken; the slot is not CANCELLED by it |
| TaskMethods.Task.CloneHandle | spawns-core/src/task.rs:608-610 | a new holder appears that can cancel, and its source still holds the slot |
| TaskMethods.Task.DropCancelHandle | spawns-core/src/task.rs:488-491 | a cancel handle goes without cancelling |
| TaskMethods.Task.DropSlot | spawns-core/src/task.rs:412-420 | once nobody holds the slot, its drop leaves no box alive |
| Interference.Causes | spawns-core/src/task.rs:232-409 | over any stretch of a run the slot becomes CANCELLED only by a caller's exchange, and that caller is the winner; an outcome is published only by `wake`; the cell closes only by the handle's drop |
| RunningId.IdsUsableIff | spawns-core/src/task.rs:72-76 | ids are nonzero and pairwise distinct for n spawns if and only if n <= 2^64 - 1 |
| RunningId.IdsCountUp | spawns-core/src/task.rs:72-76 | the ids are 1, 2, 3 and so on up to 2^64 - 1, then 0, and repeat after 2^64 |
| RunningId.SameIdIff | spawns-core/src/task.rs:72-89 | two tasks share an id if and only if 2^64 divides their distance, and the tasks with id 0 are exactly every 2^64-th |
| RunningId.IdCounter.Next | spawns-core/src/task.rs:72-76 | the n-th call returns the n-th id, wrapping at 2^64 |
| RunningId.ThreadLocals.PollFuture | spawns-core/src/task.rs:272-277 | for every tree of nested polls, the observations that are reached report, in order, the id of the last poll on the way to each, and `RUNNING_ID` is restored on return and on unwinding |
| RunningId.ReportsMean | spawns-core/src/task.rs:272-277 | by positions in the code, without following the execution: one report for each observation before which no panic gets out, in the order of the code, with the id of the last enclosing poll, and none exactly if that is 0 |
| RunningId.PanicsMeans | spawns-core/src/task.rs:323 | a body panics exactly when it contains a panic that no poll around it in the body catches |
| RunningId.AlwaysInsideATask | spawns-core/src/task.rs:672-678 | inside a task with a nonzero id, `try_id` never reports none |
| SpawnScope.NestedScopesWork | spawns-core/src/spawn.rs:33-70 | properly nested scopes never fail, send each spawn to the innermost scope around it or outside all to the initial spawner or the fallback, and restore the initial spawner |
| SpawnScope.PanicFreeRestores | spawns-core/src/spawn.rs:38-43 | every panic-free run that closes all scopes restores the initial spawner, in any drop order and with any sharing of spawners |
| SpawnScope.NothingDangles | spawns-core/src/spawn.rs:23-43 | in every panic-free run, a spawner no open scope uses is neither in effect nor remembered by an open scope, unless the thread began with it |
| SpawnScope.PanicLeavesDangling | spawns-core/src/spawn.rs:38-43 | two scopes dropped outer first, with distinct spawners: both drops panic, both scopes are closed, and the outer one's spawner is in effect |
| SpawnScope.CaughtIff | spawns-core/src/spawn.rs:38-43 | while drops have been in order, a drop fails the assertion if and only if the innermost open scope has another spawner; the panic "no spawner" cannot happen |
| SpawnScope.AllCaughtIff | spawns-core/src/spawn.rs:38-43 | every out-of-order drop would be caught if and only if no other open scope shares the innermost one's spawner |
| SpawnScope.DropOrderIff | spawns-core/src/spawn.rs:33-43 | over a run, panic-free and last-in-first-out coincide at every point if and only if no first drop out of order is of a scope sharing the innermost one's spawner |
| SpawnScope.DropOrder | spawns-core/src/spawn.rs:38-43 | consequence for pairwise distinct spawners: a run of enters and drops is free of panics if and only if it is last-in-first-out |
| SpawnScope.SharedSpawnerHidesDisorder | spawns-core/src/spawn.rs:38-43 | a spawner entered twice lets an out-of-order drop pass |
| SpawnScope.Thread.EnterScope | spawns-core/src/spawn.rs:33-36 | the new spawner is in effect, the scope remembers the one it replaces, and the thread has done one more step of a run |
| SpawnScope.Thread.DropScope | spawns-core/src/spawn.rs:38-43 | the remembered spawner is in effect again, panic or not; in every state, in order or not, it panics with "no spawner" exactly when none was in effect and passes exactly when its own was; after drops in order, it panics exactly when the innermost open scope has another spawner |
| SpawnScope.Thread.SpawnWithName | spawns-core/src/spawn.rs:45-70 | a scope's spawner always comes first; without one, exactly which compat spawner gets the task, and exactly when each of the two panics happens instead |
| Compat.PickGlobal | spawns-core/src/compat.rs:66-100 | by indices: the entry of least index with the chosen name; else an error if that feature is on and two entries are not local; else the named entry of greatest index, else the unnamed one of greatest index, else not found |
| Compat.OnlyOnePick | spawns-core/src/compat.rs:66-100 | the rule by indices determines the pick, and the recursive form used elsewhere is that pick |
| Compat.FirstMatchMeans | spawns-core/src/compat.rs:70-86 | the match is the entry of least index with the chosen name |
| Compat.LastMeans | spawns-core/src/compat.rs:73-84 | the last named and last unnamed entries are those of greatest index |
| Compat.GlobalsMeans | spawns-core/src/compat.rs:67-83 | the counter is the number of entries that are not local |
| Compat.ShortcutsAgree | spawns-core/src/compat.rs:121-140 | the shortcuts for zero and one entries equal the general search, whatever name the environment gave |
| Compat.FindLocalMeans | spawns-core/src/compat.rs:112-119 | the local answer is that of the detector of least index that answers |
| Compat.FindSpawnMeans | spawns-core/src/compat.rs:121-140 | which spawner is found (the first local answer, else the pick by the index rule), and when exactly `find_spawn` panics or finds none |
| Compat.OneGlobalAnswer | spawns-core/src/compat.rs:102-110 | all racing callers return one answer, which is the rule's for a name that one of the steps taken read, and it never changes |
| Compat.ThreadsChooseAlike | spawns-core/src/compat.rs:102-140 | two threads without a local answer find the same spawner or the same failure, whatever each read and whenever each asked: the global rule's for one name read in these steps |
| Compat.AnyThreadCanAsk | spawns-core/src/compat.rs:102-110 | from any state of the race a thread that asks gets the settled answer, or settles the rule's for what it reads |
| Compat.FirstFillDecides | spawns-core/src/compat.rs:102-110 | of two threads that find nothing settled and read different names, the first to fill the lock decides for both |
| Compat.GlobalCache.FindGlobal | spawns-core/src/compat.rs:102-110 | a settled answer is returned as it is; otherwise a rival's, else the rule's for the caller's own name is settled |

## Left out

- `spawns-executor`: thin wiring over executors whose code is not part of this model.
- `spawns-compat`: one-line adapters to runtimes; only their role as compat entries matters.
- `spawns` and `examples`: re-exports and I/O.
- `Name`, `Builder`, the `JoinError` accessors, `Display` and `Debug`: single-branch code.
- A `Spawn::spawn` that enters a scope on its own thread: it runs while `SPAWNER` is borrowed, which the `RefCell` would refuse.
- `TaskHandle::{detach, cancel, cancel_handle}`: moves of a handle around a call of `cancel`.
- Pinning, lifetime transmutes and leaked scopes: not expressible here.
- The second and later polls of a handle after Ready: the first one panics, and may leave `Joining` in the slot.
- Weak-memory effects on the contents of waker boxes: the slot's accesses interleave.
- `Thread` and `Task` keep the actors' private data in one object, so aliasing between Rust references is not modelled.
