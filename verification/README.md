# Verified model of the sylar scheduler core

sylar is a C++ library of fibers, timers, an N-thread fiber scheduler, an
epoll-based I/O manager and a logger. This project models the five parts of it
that hold the most state and proves what they promise: for every input, every
run, and every interleaving of any number of threads.

| file | contents |
|---|---|
| `Prelude.dfy` | optional values, 64-bit wrap-around addition and subtraction |
| `TimerQueue.dfy` | the timer set as a value, ordered by (deadline, address), and exactly what each operation does to it |
| `TimerManager.dfy` | `Timer` and `TimerManager` as objects with the fields and loops of the source, proved against the value model |
| `TimerRuns.dfy` | runs of any number of threads on one timer manager: fate of each timer, hook calls, no lost wake-up, distance of deliveries |
| `Fibers.dfy` | the fiber operations with their assertions, the thread-local `this_fiber`, and control transfer over all threads |
| `SleepQueue.dfy` | `t_sleep` as a binary heap whose keys live in the fibers |
| `Worker.dfy` | one pass of a worker's loop over its four queues |
| `Protocol.dfy` | submitters, allocator and workers as atomic steps between accesses to locks, counters and queues; lock and counter invariants |
| `ProtocolRuns.dfy` | what holds under every interleaving: conservation, FIFO dispatch, bounds |
| `ProtocolAgreement.dfy` | queue and state agreement, and sleep times, over every interleaving |
| `ProtocolPass.dfy` | one whole pass of a worker in the protocol: who is started, awoken, notified and resumed |
| `ProtocolLeaving.dfy` | when the threads leave after `stop`, and within how many of their own steps |
| `ProtocolNotify.dfy` | what an undisciplined notified fiber does to the next `notify`, and a run that gets there |
| `ProtocolLoops.dfy` | the steps of the protocol's worker are the steps of the loops in `Worker.dfy` |
| `Allocator.dfy` | `submit` and the allocator's loop as an object, fairness and progress of its rounds, and the refinement from the protocol |
| `AllocatorRuns.dfy` | progress of the allocator under every interleaving |
| `LockOrder.dfy` | the lock operations of every code path, lock order, deadlock freedom |
| `LockPaths.dfy` | the lock paths of submitters, allocator and workers are those the protocol takes |
| `EventTable.dfy` | the I/O event table, its slots in the heap, its counter and the kernel's interest list as a value |
| `EventSteps.dfy` | the same under interleaving: each call as steps towards and under the mutex of a slot, and the invariant they keep |
| `EventRuns.dfy` | what holds in every interleaving: agreement, fates, what growth loses, draining, spent events |
| `EventCalls.dfy` | undisturbed, the steps of each call are the operations of the value model |
| `IOManager.dfy` | `FdContext` and `IOManager` as objects with bit masks, proved against the value model |
| `LogPattern.dfy` | the log pattern scanner as a function and as the loop nest it is, its printer, and both directions of the round trip |

How the parts are modelled. A clock reading, the address an allocator picks, the
answer of `epoll_ctl`, the top of the randomised ready queue, and the operation
by which user code gives control back are inputs. 64-bit sums wrap around. A failing
assertion is an outcome of its own (`None`, `Abort`, `crashed`); the library is
built without `NDEBUG` (CMakeLists.txt:3), so the assertions are there.

What is one step under interleaving: in the scheduler protocol, each access to a
lock, an atomic counter or a shared queue. In the event table, reading its size,
growing it, taking a slot's mutex together with the test and `epoll_ctl`, each
access to the atomic counter, each `triggerEvent` and each change of a mask with
its context; the call keeps the address of the slot it found, whatever becomes of
the table. In the timer queue, a section under the manager's lock, and the call
of the front hook behind it; a clock reading may be older than the section.

The runs of the scheduler protocol start when `start` has returned and end with
the first abort. A `submit` that overlaps with `start`, after sylar/scheduler.cpp:234
has cleared `m_stop` and before line 240 has replaced `m_tasks`, is outside: its
accepted task can be lost while `m_count` stays up, so that `stop` does not return.
A refused task aborts when `submit` is called on a child fiber, and an ignored one
when `submit` had the last reference to a fiber that is not over
(`Allocators.Scheduler.Submit`).

Where code and documentation differ, the code is followed. The comment above
`LogFormatter::init` (sylar/log.cpp:291) lists `%%` as an escape; the code emits
one `%` and lets the second sign open a directive, which
`LogPattern.PercentOpensDirective` and `LogPattern.TrailingPercent` state.

Results that are not what a reader of the source would expect, each with the
exact condition under which the expected holds: an empty callback leaves a timer
pending that cannot be cancelled (`TimerRuns.EmptyCallbackStaysPending`); the front
hook can be called twice between two `getNextTimer` calls, by a caller that was
held up behind its unlock (`TimerRuns.HookCalledTwice`, `TimerRuns.HookCallsExact`); a
clock set back between `getNextTimer` and `refresh` loses a wake-up
(`TimerRuns.SetBackClockLosesWakeUp`, `TimerRuns.RefreshBoundExact`), and so does a
reading in `listExpiredCb` that is more than an hour old when it gets the lock
(`TimerRuns.StaleReadingLosesWakeUp`, `TimerRuns.StaleReadingExact`); the assertions of
a fiber operation let a child suspend another thread's child
(`Fibers.AssertionsAreNotEnough`, `Fibers.CallExact`); a notified fiber that neither
yields nor holds makes the next `notify` of its task fail (`ProtocolNotify.BadRunFails`,
`ProtocolNotify.NextNotifyFails`, `ProtocolNotify.StrandsExact`); `delEvent` aborts
whenever it has something to delete, because the fiber it destroys was never run
(`EventTables.DeleteExact`, `EventRuns.DeleteNeverReturns`); two calls of `addEvent`
that grow the table can make it smaller and lose a slot with an event, or one that
is about to get it (`EventRuns.GrowthRaces`, `EventRuns.GrowExact`); an event that was
triggered once can never be registered again on its descriptor
(`EventRuns.TriggeredIsSpent`, `EventRuns.SpentForGood`); an `addEvent` in flight during
`stop` registers after the drain is over (`EventRuns.LateRegistrations`,
`EventRuns.NothingNewAfterStop`).

## Model

| member | source | states |
|---|---|---|
| TimerQueue.InsertSorts | sylar/timer.cpp:6-24 | inserting by the comparator keeps the set strictly sorted by (deadline, address) and adds exactly the one timer, whatever was in it |
| TimerQueue.SortedExact | sylar/timer.cpp:6-24 | the order spelled out: by deadline, and by address among equal deadlines |
| TimerQueue.FindSucceeds | sylar/timer.cpp:44 | `find` by the mutable key finds every timer that is in a sorted set, at its position |
| TimerQueue.AddExact | sylar/timer.cpp:99-105 | adding keeps the set valid, arms the new timer at now + ms, changes no other timer, and calls the hook iff the new timer is in front and no call is outstanding |
| TimerQueue.CancelExact | sylar/timer.cpp:40-49 | `cancel` succeeds iff the callback is set; then the timer is disarmed and out of the set, and no other is touched |
| TimerQueue.RefreshExact | sylar/timer.cpp:51-64 | `refresh` succeeds iff the timer is armed, moves its deadline to now + period, keeps the set sorted and all others in place, and never calls the hook |
| TimerQueue.ResetExact | sylar/timer.cpp:66-90 | `reset` returns true without looking at the timer when the period is unchanged and not counted from now; otherwise it succeeds iff armed and re-keys that timer only |
| TimerQueue.ResetLockedExact | sylar/timer.cpp:70-90 | behind the unlocked test any period can arrive: an armed timer is re-keyed, any other is left alone, and the hook is due iff the timer gets in front of all others under a lowered flag |
| TimerQueue.NextTimerExact | sylar/timer.cpp:120-134 | the wait is 2^64-1 for an empty set, 0 iff some pending deadline has passed, and else leads exactly to a pending deadline and beyond none; only the flag changes |
| TimerQueue.RolloverExact | sylar/timer.cpp:187-195 | the wrapping comparison detects a rollback iff the clock went back by more than 3600000 ms, or went back at all while below that |
| TimerQueue.ExpiredCountExact | sylar/timer.cpp:154-160 | the range taken out is exactly the due prefix of the set, or all of it after a rollback |
| TimerQueue.ListExpiredExact | sylar/timer.cpp:136-172 | exact expiry: the due timers and no others are handed out once each in (deadline, address) order, one-shots end disarmed, recurring ones re-armed at now + period, others unchanged |
| TimerQueue.ProbeIrrelevant | sylar/timer.cpp:154-158 | the result does not depend on the address of the temporary timer used for the search |
| TimerQueue.NothingLeftDue | sylar/timer.cpp:163-171 | afterwards nothing pending is due except recurring timers of period 0 (or whose sum wraps) |
| TimerManagers.Timer.constructor | sylar/timer.cpp:27-34 | a timer is created with its deadline at now + ms |
| TimerManagers.Timer.Cancel | sylar/timer.cpp:40-49 | the method computes the value model's cancel on the manager's state and keeps the manager valid |
| TimerManagers.Timer.Refresh | sylar/timer.cpp:51-64 | likewise for refresh: erase, change the key, insert |
| TimerManagers.Timer.Reset | sylar/timer.cpp:66-90 | likewise for reset, with its early return and the hook |
| TimerManagers.TimerManager.AddTimer | sylar/timer.cpp:99-105 | likewise for adding a timer at a fresh address |
| TimerManagers.TimerManager.Place | sylar/timer.cpp:174-185 | inserts and calls the hook iff the timer is in front and the flag was clear, which it then sets |
| TimerManagers.TimerManager.GetNextTimer | sylar/timer.cpp:120-134 | takes the flag down and changes nothing else; for ever if the set is empty, 0 iff some deadline has passed, else up to the earliest pending deadline |
| TimerManagers.TimerManager.DetectClockRollover | sylar/timer.cpp:187-195 | the 64-bit test as a condition on plain numbers, and the reading is stored |
| TimerManagers.TimerManager.ListExpiredCb | sylar/timer.cpp:136-172 | the loops of the source append exactly the callbacks of the value model's expiry, in order |
| TimerManagers.TimerManager.HasTimer | sylar/timer.cpp:197-200 | true iff some timer is pending |
| TimerRuns.SetIsExact | sylar/timer.cpp:40-90 | after any sequence of operations the set is strictly sorted and holds every armed timer, and nothing else unless an empty callback was added |
| TimerRuns.EmptyCallbackStaysPending | sylar/timer.cpp:99-105 | the input for which the second half fails: an empty callback is pending and cannot be cancelled |
| TimerRuns.OneShotFate | sylar/timer.cpp:163-171 | in every run a one-shot timer is exactly one of pending, delivered once, cancelled |
| TimerRuns.CancelIsFinal | sylar/timer.cpp:40-49 | after a cancel that returned true nothing is newly delivered, whatever follows |
| TimerRuns.ArmingTime | sylar/timer.cpp:79-86 | deadline minus period is the clock reading the timer was last armed at; reset(ms, false) keeps that reading, and the subtraction does not wrap unless the sum did |
| TimerRuns.HookCallsExact | sylar/timer.cpp:174-185 | in every interleaving the flag goes up at most once between two calls of `getNextTimer`; the hook calls made since the last one are that one and those owed from before, less those still to come, so at most one more than the callers past their unlock |
| TimerRuns.HookCallsReached | sylar/timer.cpp:180-184 | when all who owe a call make it, that bound is met exactly |
| TimerRuns.HookCalledTwice | sylar/timer.cpp:180-184 | the run in which the hook is called twice between two calls of `getNextTimer` |
| TimerRuns.NoLostWakeUp | sylar/timer.cpp:120-134 | in every interleaving under a clock that never goes back, with readings taken ahead of the lock in `addTimer` and (less than an hour) in `listExpiredCb`: while the flag is clear, no pending deadline is earlier than the first one the last `getNextTimer` saw (none if it saw none) |
| TimerRuns.RefreshBoundExact | sylar/timer.cpp:51-64 | `refresh`, which bypasses the hook, keeps that bound iff the new deadline is not below it |
| TimerRuns.ExpireBoundExact | sylar/timer.cpp:163-171 | so does firing, iff no recurring timer is re-armed below it |
| TimerRuns.StaleReadingExact | sylar/timer.cpp:136-172 | with sums in range, expiry breaks that bound iff its reading counts as set back and arms a pending recurring timer ahead of the bound |
| TimerRuns.StaleReadingLosesWakeUp | sylar/timer.cpp:137-150 | for any readings of a clock that never goes back, the first more than an hour behind a later one: the run in which the thread with the first reading is held up and arms a timer ahead of the bound |
| TimerRuns.SetBackClockLosesWakeUp | sylar/timer.cpp:51-64 | the run with a clock set back in which the bound is lost |
| TimerRuns.RecurringGap | sylar/timer.cpp:163-171 | under the same conditions a delivered timer is due, and two successive deliveries of a recurring timer that is not reset are at least its period apart |
| Fibers.GuardExact | sylar/fiber.cpp:151-256 | comparing ids tells whether the main fiber runs, also for fibers created on another thread |
| Fibers.CallExact | sylar/fiber.cpp:151-262 | a call that passes its assertions keeps control well accounted for iff it is made by the fiber's own thread on the fiber in question |
| Fibers.AssertionsAreNotEnough | sylar/fiber.cpp:177-189 | a state and a call that passes every assertion and breaks it |
| Fibers.ControlTransfer | sylar/fiber.cpp:10-42 | in every run of proper calls on any number of threads `this_fiber` is the main fiber iff no child executes there and else the one executing child; main fibers have id 0, children that execute at least 1, and no two threads run the same fiber |
| Fibers.Fiber.Resume | sylar/fiber.cpp:160-175 | succeeds iff on the main fiber and READY; then EXEC, and control is with the fiber |
| Fibers.Fiber.Hold | sylar/fiber.cpp:191-203 | succeeds iff off the main fiber and EXEC; then HOLD, and control is with the main fiber |
| Fibers.Fiber.Yield | sylar/fiber.cpp:177-189 | likewise, and then READY |
| Fibers.Fiber.Sleep | sylar/fiber.cpp:234-247 | likewise, and then SLEEP with the wake time now + t |
| Fibers.Fiber.Stop | sylar/fiber.cpp:222-232 | succeeds iff off the main fiber; then DESTROY, and control is with the main fiber |
| Fibers.TakenUpExact | sylar/fiber.cpp:151-256 | whatever all threads do to other fibers in between, a fiber that yielded is taken up by `resume` and nothing else, one that holds by `notify`, one that sleeps by `awake`, one that ended by none, from a main fiber only; only `sleep` sets the wake time |
| Fibers.ChildrenNumbered | sylar/fiber.cpp:97-128 | from its first fiber on, a thread numbers the children it creates through from 1, whatever other threads create |
| Fibers.Locals.GetThis | sylar/fiber.cpp:31-42 | returns the current fiber, creating the thread's main fiber with id 0 on the first call |
| Fibers.Locals.CreatFiber | sylar/fiber.cpp:15-24 | creates the main fiber first if need be, so that every child gets an id of at least 1 |
| SleepQueues.RootIsEarliest | sylar/scheduler.h:70-77 | the root of the heap has the least wake time |
| SleepQueues.HeapSurvives | sylar/scheduler.h:70-77 | the order survives changes to fibers that keep the wake times of queued tasks |
| SleepQueues.SleepQueue.Push | sylar/scheduler.cpp:92 | the heap gains exactly the task and stays a heap |
| SleepQueues.SleepQueue.Pop | sylar/scheduler.cpp:50 | the heap loses exactly the task on top and stays a heap |
| Workers.Worker.DrainInit | sylar/scheduler.cpp:29-35 | every task handed over is started, asserting INIT, and becomes ready; queues and states go on agreeing |
| Workers.Worker.WakeSleepers | sylar/scheduler.cpp:41-57 | wakes exactly the sleepers with a wake time before the pass's clock, earliest first, and leaves the others |
| Workers.Worker.NotifyHeld | sylar/scheduler.cpp:59-77 | notifies each held fiber once; those back READY move to the ready queue, the rest keep their order |
| Workers.NotifiedExact | sylar/scheduler.cpp:59-77 | no task is lost, and queues and states agree afterwards iff every notified fiber came back READY or HOLD |
| Workers.ReleasedOrKept | sylar/scheduler.cpp:63-76 | each held task is either released or kept, by the state it came back in, as often as it was held |
| Workers.Worker.RunOne | sylar/scheduler.cpp:79-104 | runs one ready task, if there is any, puts it into the queue of the state it comes back in, and lowers the counter iff it ended |
| Workers.RanKeepsAgreement | sylar/scheduler.cpp:86-102 | after any possible return every queue still holds only fibers in its own state, each once |
| Workers.Worker.Sort | sylar/scheduler.cpp:25-77 | the first three parts of a pass move exactly the tasks they are for: all of `t_init` if the lock was free, the sleepers that are due, the held tasks that came back READY; no task is lost |
| Workers.Worker.Pass | sylar/scheduler.cpp:18-105 | one whole pass keeps queues and states in agreement, fails no assertion, keeps counter and number of tasks in step, and leaves no sleeper that is due, given that notified fibers yield or hold |
| Protocol.NextKeepsLocks | sylar/scheduler.cpp:124-131 | in every step each lock is held by exactly the thread whose position says so |
| Protocol.EffectKeeps | sylar/scheduler.cpp:18-106 | whatever a worker does, each of its tasks stays with it or is finished, the counter falls by the finished ones, tasks start in the order of handing over, and only the locked section touches `t_init` |
| Protocol.NextKeepsCounters | sylar/scheduler.cpp:136-144 | every step keeps both counters equal to the queues they count, up to the one task in transit |
| ProtocolRuns.TaskConservation | sylar/scheduler.cpp:18-147 | under every interleaving an accepted task is in exactly one of the global queue, one queue of one worker, one worker's hands, or finished; a task not accepted is nowhere |
| ProtocolRuns.CounterExact | sylar/scheduler.cpp:118-147 | the counters equal the queues whenever the locks that guard them are free, none is ever negative, and a worker that has left holds nothing in its own queues |
| ProtocolRuns.Backpressure | sylar/scheduler.cpp:133-145 | the global queue never exceeds 10000 and no worker's counter 100009 |
| ProtocolRuns.FifoDispatch | sylar/scheduler.cpp:138-140 | the accepted tasks are the dispatched ones followed by the queue; each worker was given a subsequence of them and has started a prefix of that; together the workers were given everything dispatched, each task once |
| ProtocolRuns.RouteIsSubsequence | sylar/scheduler.cpp:138-140 | what one worker is given is a subsequence of the submission order |
| ProtocolRuns.RoutesPartition | sylar/scheduler.cpp:138-140 | the workers' shares add up to the dispatched tasks |
| ProtocolRuns.LeavesWhenDone | sylar/scheduler.cpp:18-118 | no thread leaves before `stop`; the allocator leaves an empty queue, or one task that a submitter has pushed and not yet counted; a worker leaves nothing behind but one task just handed over |
| ProtocolRuns.SubmitExact | sylar/scheduler.cpp:255-272 | with the lock in hand a task is accepted, at the end, iff fewer than 10000 wait, else its fiber is destroyed; a call after `stop` comes to nothing |
| ProtocolRuns.TestExact | sylar/scheduler.cpp:133-136 | a worker is given up to ten tasks iff its counter is below 100000 |
| ProtocolLeaving.WorkerLeavesExact | sylar/scheduler.cpp:18-24 | in every run a worker that has seen the switch leaves at that step iff its counter is 0, which is when it has no task but one just handed over and not counted; else it goes on |
| ProtocolLeaving.AllocatorLeavesExact | sylar/scheduler.cpp:118 | likewise the allocator, by the global counter |
| ProtocolLeaving.IdleWorkerLeaves | sylar/scheduler.cpp:18-105 | in every run, once stopped, a worker that has no task and is handed none has left after eight of its own steps, two from the loop head, whatever the others do |
| ProtocolLeaving.StoppedWorkerLeaves | sylar/scheduler.cpp:245-253 | so a worker at its loop head without a task when the switch is set is gone after two of its own steps, and the join returns |
| ProtocolLeaving.IdleAllocatorLeaves | sylar/scheduler.cpp:118-147 | once stopped, with an empty queue and no `submit` under way, the allocator has left after eight of its own steps, two from between rounds, not counting those that wait for a worker's lock |
| ProtocolPass.WholePass | sylar/scheduler.cpp:26-77 | a pass with the lock free starts everything handed over in order, readies exactly the sleepers whose wake time lies before the clock reading, notifies every held task once and readies those that yield, and moves nothing else |
| ProtocolPass.DrainsAll | sylar/scheduler.cpp:29-35 | every task handed over becomes ready, with its fiber, and no other fiber changes |
| ProtocolPass.WakesDue | sylar/scheduler.cpp:41-57 | however many steps it takes, the sleepers that are due become ready and the others stay |
| ProtocolPass.WakingEnds | sylar/scheduler.cpp:46-57 | with the earliest on top each time, that takes at most one step more than there are sleepers |
| ProtocolPass.NotifiesAll | sylar/scheduler.cpp:59-77 | the loop over the held tasks notifies each once; those that yield are ready, the others stay in their order |
| ProtocolPass.NotifiedStates | sylar/scheduler.cpp:65-75 | and each of their fibers is left in the state of its way of giving back |
| ProtocolPass.SkipsDrain | sylar/scheduler.cpp:27-38 | when the allocator has the worker's lock, the pass goes on without what was handed over |
| ProtocolPass.PassPicks | sylar/scheduler.cpp:79-84 | then a ready task is popped and executes, or, if there is none, the pass is over |
| ProtocolAgreement.QueuesAgree | sylar/scheduler.cpp:25-104 | in every state of every such run each queue of each worker holds only fibers in the state it is for, and the global queue only INIT ones |
| ProtocolAgreement.NotifiedAgreesExact | sylar/scheduler.cpp:65-75 | after one notify queue and state of the notified task agree iff it came back READY or HOLD |
| ProtocolAgreement.NoAssertionFails | sylar/scheduler.cpp:25-104 | in every interleaving in which fibers are submitted once and notified ones next yield or hold, no state assertion of `start`, `awake`, `notify` or `resume` fails, and each leaves its fiber in the state the operation promises |
| ProtocolAgreement.EffectAgrees | sylar/scheduler.cpp:25-104 | each step of a worker keeps each of its tasks in the state of the place it is in, and leaves the fibers of other tasks alone |
| ProtocolAgreement.NowhereElse | sylar/scheduler.cpp:18-147 | a task that some worker has is with no other worker, not in the global queue and in no submitter's hands |
| ProtocolAgreement.GivesBackTo | sylar/scheduler.cpp:84-102 | a running fiber that yields goes to the ready queue, one that holds to the end of `t_hold`, one that sleeps to the sleep queue with its wake time, one that returns or throws is done with, each in the state of its place, and no other fiber changes |
| ProtocolAgreement.OnlyCallsChange | sylar/scheduler.cpp:25-104 | no step of a worker changes a fiber but by an operation called on it or while it runs |
| ProtocolAgreement.DroppedIsOver | sylar/scheduler.cpp:98-102 | in every such run, where a worker drops a finished task the assertions of `~Fiber` hold |
| ProtocolAgreement.SleepsLongEnough | sylar/scheduler.cpp:41-57 | in every interleaving a step that takes a task out of a sleep queue takes the earliest sleeper and makes it ready, in a pass whose clock reading is beyond the (64-bit) sum of when it went to sleep and for how long |
| ProtocolAgreement.SubmissionFate | sylar/scheduler.cpp:255-272 | under every interleaving a fiber submitted to the running scheduler is exactly one of: in the hands of one `submit` call, accepted, or refused, destroyed and nowhere |
| ProtocolNotify.StrandsExact | sylar/scheduler.cpp:65-75 | a notified task stays in `t_hold` with a fiber that is not held iff the fiber neither yields nor holds |
| ProtocolNotify.NextNotifyFails | sylar/scheduler.cpp:59-77 | in every interleaving, when that happens the next `notify` of the task, whenever it comes, finds a state that fails its assertion |
| ProtocolNotify.BadRunFails | sylar/scheduler.cpp:18-147 | the run of one worker and one fiber, from an empty scheduler on, that reaches such a `notify` |
| ProtocolLoops.StartIsStartFirst | sylar/scheduler.cpp:29-35 | starting a task in the protocol is one turn of the loop over `t_init` |
| ProtocolLoops.PossibleExact | sylar/scheduler.cpp:85-102 | the states the loop tells apart are exactly those in which some operation gives control back |
| ProtocolLoops.WakeIsWakeFirst | sylar/scheduler.cpp:43-52 | the top of the heap is a task the protocol may wake, and waking it is one turn of the loop over `t_sleep` |
| ProtocolLoops.NotifyIsNotifyAt | sylar/scheduler.cpp:63-76 | notifying in the protocol is one turn of the loop over `t_hold` |
| ProtocolLoops.ResumeAndReturnAreRan | sylar/scheduler.cpp:81-103 | resuming a task and its return, in a row, are the last part of a pass |
| ProtocolLoops.WakingEndsLikeTheLoop | sylar/scheduler.cpp:46-55 | the protocol goes on from waking only when no sleeper is due, as the loop does |
| Allocators.Scheduler.Submit | sylar/scheduler.cpp:255-272 | a task is accepted at the end of the queue iff running and below 10000; a refused fiber is destroyed, which aborts when `submit` is called from a child fiber; a task ignored after `stop` aborts iff it held the last reference and `~Fiber` (sylar/fiber.cpp:130-136) objects |
| Allocators.Scheduler.HandOver | sylar/scheduler.cpp:132-146 | the inner loop moves the first min(10, waiting) tasks in order, or none at the worker's limit, and both counters with them |
| Allocators.Scheduler.Allocate | sylar/scheduler.cpp:118-147 | one turn of the allocator's loop is one round of the value model, and nothing without workers |
| Allocators.RoundExact | sylar/scheduler.cpp:124-146 | a round in numbers: the next worker, round robin, gets the first min(10, waiting) tasks below 100000 and none from there on; both counters follow |
| Allocators.EachExactlyOnce | sylar/scheduler.cpp:125-130 | any N consecutive rounds visit each of N workers exactly once |
| AllocatorRuns.QueueShrinks | sylar/scheduler.cpp:118-147 | in every run and from any state in which the queue is not empty and some worker is below its limit: by the time the allocator has released the queue lock N times for N workers (once more from within a round) the queue is shorter, whatever all threads do in between, if nothing is accepted |
| AllocatorRuns.NextApproaches | sylar/scheduler.cpp:124-146 | no step of any thread leads further away from moving a task: either one is moved, or the number of rounds left does not grow, and falls by one with each round that ends |
| Allocators.QueueShrinks | sylar/scheduler.cpp:118-147 | the same for the value model, whose rounds are atomic |
| Allocators.StuckWhenFull | sylar/scheduler.cpp:133 | that condition is needed: with every worker at its limit and none finishing, nothing moves |
| Allocators.RoundOfTheProtocol | sylar/scheduler.cpp:124-146 | the atomic steps of an undisturbed round of the protocol add up to the round of the value model |
| LockOrder.PathClimbs | sylar/iomanager.cpp:200-279 | every code path waits only for locks above those it holds, holds the table and timer locks alone, and ends holding none |
| LockOrder.NoDeadlock | sylar/scheduler.cpp:124-131 | for any number of threads on any of the paths: locks exclude each other, table and timer lock are held alone, and while some thread waits a lock holder can go on |
| LockOrder.EveryCallReturns | sylar/iomanager.cpp:112-126 | whatever the schedule, calls that have begun return: a schedule of enabled threads is no longer than the operations ahead, and ends only when all are done |
| LockOrder.InSlotClimbs | sylar/iomanager.cpp:326-373 | triggering under the slot's mutex, with logging and any number of submits, keeps the order |
| LockPaths.AllocatorFollows | sylar/scheduler.cpp:124-147 | in every run of the protocol the allocator holds exactly the locks that its path has taken so far |
| LockPaths.AllocatorOneByOne | sylar/scheduler.cpp:124-147 | each of its steps is at most the next operation of that path |
| LockPaths.SubmitterFollows | sylar/scheduler.cpp:258-261 | likewise a submitter and the queue lock |
| LockPaths.WorkerFollows | sylar/scheduler.cpp:27-37 | likewise a worker and its own lock |
| EventTables.AddExact | sylar/iomanager.cpp:126-159 | registering succeeds, fails or aborts exactly as stated: it fails also when another slot has events of the descriptor, and aborts when the event is registered or a fiber is left over from an event triggered before; agreement and accounting are kept |
| EventTables.AddLegal | sylar/iomanager.cpp:135-140 | the epoll operation chosen is the legal one iff no other slot has events of the descriptor |
| EventTables.DeleteExact | sylar/iomanager.cpp:172-198 | aborts iff the event is registered and the kernel agrees, and else fails and changes nothing: the context held the only reference to a fiber that is still INIT |
| EventTables.RegisteredIsInit | sylar/fiber.cpp:130-136 | the fiber of a registered event was never submitted, so it is INIT and the assertion of its destructor fails |
| EventTables.CancelExact | sylar/iomanager.cpp:210-234 | if the event is registered and the kernel agrees, the fiber is submitted once and stays behind in the context, or the call aborts because the submit is refused on a child fiber |
| EventTables.CancelAllExact | sylar/iomanager.cpp:246-279 | likewise with the fibers of exactly the registered events; none is left registered |
| EventTables.DispatchExact | sylar/iomanager.cpp:325-373 | submits the reported events that are registered, error and hang-up standing for all; aborts iff one is reported that is not registered next to one that is |
| EventTables.CancelEventExact | sylar/iomanager.cpp:200-234 | by descriptor: fails beyond the table; else it is about the slot of that descriptor and hands over exactly the named event's fiber, iff it is registered, the kernel agrees and the submit is not refused |
| EventTables.CancelEventsExact | sylar/iomanager.cpp:236-279 | likewise for all events of the descriptor |
| EventTables.DeleteEventExact | sylar/iomanager.cpp:162-198 | by descriptor: fails and changes nothing, or aborts iff the event is registered in the table and the kernel agrees |
| EventTables.AddEventExact | sylar/iomanager.cpp:102-160 | by descriptor, undisturbed: fails when stopping; grows the table to 3 fd / 2 slots iff it does not reach the descriptor; and registers the event on the slot of that descriptor, with success, failure and abort as iffs |
| EventTables.ResizeExact | sylar/iomanager.cpp:88-100 | resizing keeps masks, contexts, counter and kernel in agreement; every slot with events is still in the table iff none is cut off |
| EventSteps.NextSound | sylar/iomanager.cpp:102-291 | every step of every thread keeps masks, contexts, holders, kernel, counter and the calls on their way in agreement |
| EventRuns.EventsAgree | sylar/iomanager.cpp:88-279 | in every interleaving, growth that loses slots included: slot i of the table has descriptor i, a bit is set iff the context has a scheduler, the kernel watches exactly the registered events up to what the holder of the slot's mutex is about to do, the counter is their number up to the same and never negative, and every registration is pending or submitted, exactly once |
| EventRuns.DeleteNeverReturns | sylar/iomanager.cpp:193-197 | in no run does a `delEvent` that `epoll_ctl` has served get past the reset of its context |
| EventRuns.GrowExact | sylar/iomanager.cpp:119-124 | growing keeps every slot that lives in the table iff no slot it cuts off has an event or a call about to register one |
| EventRuns.TableComplete | sylar/iomanager.cpp:112-124 | if every growth meets that condition, in every state of the run each such slot is in the table under its descriptor, and is the one the kernel reports |
| EventRuns.GrowthRaces | sylar/iomanager.cpp:112-124 | two calls for descriptors 100 and 40 that both find 32 slots: the table ends with 60, and an event registered before, or after, that has no slot |
| EventRuns.NothingNewAfterStop | sylar/iomanager.cpp:286-292 | once stopping, what is pending never exceeds what was pending plus the `addEvent` calls on their way, and never rises without any |
| EventRuns.WaitEndsExact | sylar/iomanager.cpp:286-292 | the wait ends at a look at the counter, after `stop` has begun, iff that is 0 |
| EventRuns.DrainedMeansEmpty | sylar/iomanager.cpp:289-291 | when the wait of `stop` ends, no slot has an event but one that a `delEvent` in flight has discounted, and the kernel watches nothing but what an `addEvent` in flight has yet to count; with nobody under a mutex there is neither |
| EventRuns.LateRegistrations | sylar/iomanager.cpp:104-150 | the runs in which a call in flight, before the lookup or between `epoll_ctl` and the counter, registers after that |
| EventRuns.TakenIsSpent | sylar/iomanager.cpp:39-47 | every step that takes a registered event away leaves its fiber in the context |
| EventRuns.TriggeredIsSpent | sylar/iomanager.cpp:150-155 | from then on, in every run, that event is never registered again on that slot: an attempt fails at the kernel or aborts |
| EventRuns.SpentForGood | sylar/iomanager.cpp:112-155 | nor on its descriptor, as long as growth does not shrink the table |
| EventCalls.AddAlone | sylar/iomanager.cpp:102-160 | undisturbed, the steps of `addEvent` are the value model's add |
| EventCalls.DeleteAlone | sylar/iomanager.cpp:162-198 | likewise for `delEvent` |
| EventCalls.TriggeringCallAlone | sylar/iomanager.cpp:200-279 | likewise for `cancelEvent`, `cancelAll` and a turn of the dispatch loop, with the submits that are refused on a child fiber |
| IOManagers.BitsAreMasks | sylar/iomanager.h:13-18 | testing, setting and clearing the bits 0x1 and 0x4 are membership, insertion and removal on masks |
| IOManagers.RealBitsAre | sylar/iomanager.cpp:331-343 | the bits acted on are the reported ones, and all registered ones after an error or a hang-up |
| IOManagers.FdContext.TriggerEvent | sylar/iomanager.cpp:39-47 | fails its assertion iff the bit is clear; else clears bit and scheduler, submits the fiber and leaves it in the context |
| IOManagers.IOManager.constructor | sylar/iomanager.cpp:49-70 | a table of 32 fresh slots with nothing registered |
| IOManagers.IOManager.ContextResize | sylar/iomanager.cpp:88-100 | slots that stay keep their address and contents, new ones are fresh and carry their index, those cut off live on outside the table |
| IOManagers.IOManager.AddEvent | sylar/iomanager.cpp:102-160 | computes the value model's undisturbed add |
| IOManagers.IOManager.Forget | sylar/iomanager.cpp:193-196 | lowers the counter, clears the bit and empties the context, and fails iff the destructor of the fiber does |
| IOManagers.IOManager.DelEvent | sylar/iomanager.cpp:162-198 | computes the value model's delete behind the lookup of the descriptor |
| IOManagers.IOManager.CancelEvent | sylar/iomanager.cpp:200-234 | computes the value model's cancel behind the lookup, refused submits included |
| IOManagers.IOManager.CancelAllEvents | sylar/iomanager.cpp:236-279 | computes the value model's cancel-all behind the lookup, refused submits included |
| IOManagers.IOManager.HandleReports | sylar/iomanager.cpp:325-373 | the loop over a batch of reports computes their dispatch one after the other, up to the first abort |
| IOManagers.BatchExact | sylar/iomanager.cpp:325-373 | a batch hands over, report by report, the registered events each is about, as many fibers as the counter falls by, and aborts only at one about an event that is not registered next to one that is |
| LogPattern.Lossless | sylar/log.cpp:297-381 | for every pattern whose braces all close, printing the tokens in order gives the pattern, `%%` included |
| LogPattern.RoundTrip | sylar/log.cpp:292-381 | a token list is canonical iff no token is an error and printing and scanning it gives it back |
| LogPattern.ScanInjective | sylar/log.cpp:292-381 | patterns whose braces all close and that scan alike are equal |
| LogPattern.PercentOpensDirective | sylar/log.cpp:305-313 | a `%` gets into a literal only in front of another directive |
| LogPattern.TrailingPercent | sylar/log.cpp:305-313 | a pattern ending in `%` that scans clean contains a directive without a name |
| LogPattern.OpenBraceIsReported | sylar/log.cpp:314-380 | a brace behind a name of letters that never closes is reported, wherever it stands |
| LogPattern.ReportedIsOpenBrace | sylar/log.cpp:314-380 | every reported error is such a brace, stray closing braces in the name allowed |
| LogPattern.ReadAt | sylar/log.cpp:314-358 | the inner loop reads exactly one directive, or finds its brace open |
| LogPattern.ScanPattern | sylar/log.cpp:297-381 | the loop nest collects exactly the tokens of the recursive scanner, and the flag iff some brace is open, although it rescans after an error |
| LogPattern.LosslessButErrors | sylar/log.cpp:297-381 | for every pattern, writing the tokens back gives the pattern without as many percent signs as errors were reported |
| LogPattern.ErrorsCutNothing | sylar/log.cpp:353-381 | an error does not cut the text around it: every literal reaches up to a directive or the end |
| LogPattern.AlphaExact | sylar/log.cpp:322 | names are made of the 52 letters |
| LogPattern.WritesPrint | sylar/log.cpp:406-434 | when all names are registered, writing the items back gives what printing the tokens gives |
| LogPattern.LogFormatter.Init | sylar/log.cpp:292-438 | one item per token in order: text as it is, a registered directive by name and format, and the fixed error texts with the name; for a clean pattern writing the items back gives the pattern; the error flag iff a brace stays open or a name is not registered |

## Left out

- `ucontext` switches, stacks, `pthread` and semaphores: foreign calls; a switch is the state it leaves behind.
- Object lifetime beyond the assertions of `~Fiber` where the code drops what may be the last reference: reference counts, `~IOManager`, `Fiber::reset`, and the wrap-around of the id counter.
- The catch blocks of `MainFunc` print `cur->getId()` after `cur.reset()` (sylar/fiber.cpp:48, 59, 66), which dereferences a null pointer. "The state becomes EXCEPT and control returns" is the behaviour they are written for, and the model's; a callback that throws in fact never gives control back.
- The C++ memory model: steps are sequentially consistent.
- Lock fairness and reader/writer preference: deadlock freedom does not depend on them, starvation is not excluded.
- Priorities and the `thread` field of `Task`: the ready order is randomised and the allocator ignores the field, so any ready task may run.
- Completion of all tasks after `stop`, and a second `start`: the code guarantees neither; one start/stop cycle is modelled, and a worker may leave while the global queue still holds tasks.
- Liveness under an unfair thread scheduler: progress is stated in rounds of the allocator and in steps of enabled threads.
- `epoll_wait`, edge triggering, the tickle pipe, closed descriptors and negative descriptors: kernel behaviour or caller errors outside the table; a report names a slot there ever was.
- Only the low byte of the events reported by the kernel is modelled, which holds all bits the code looks at.
- The events of a callback that throws, and what fibers do besides giving control back.
- Timers without a manager and null timers in the comparator: only the search probe has no manager, and no null is ever stored.
- `addConditionTimer`: it wraps the callback and calls `addTimer`.
- ProtocolAgreement.NoAssertionFails: assumes the discipline on notified fibers that `Workers.NotifiedExact` shows to be necessary for one pass.
- ProtocolRuns.TaskConservation: assumes that a fiber is submitted at most once, and that no `submit` overlaps with `start`.
- TimerRuns.NoLostWakeUp: for clocks that do not go back and sums that fit 64 bits; the exact conditions are `TimerRuns.RefreshBoundExact`, `TimerRuns.ExpireBoundExact` and `TimerRuns.StaleReadingExact`.
- EventRuns.TableComplete: for growth that cuts off nothing that lives; `EventRuns.GrowExact` gives the exact condition and `EventRuns.GrowthRaces` two runs that fail.
- EventSteps.Next: `delEvent`, `cancelEvent`, `cancelAll` and a report may meet any slot there ever was, which includes the ones they find in the table or are told of; that a descriptor beyond the table fails is left to the operations of the value model.
- LogPattern.LogFormatter.Init: an item is its kind, name and format; date formats and output are not modelled, and the registered names are a parameter.
- Configuration, YAML, `Env`, `FSUtil`, singletons, appenders, backtraces: input and output, or easy members.
