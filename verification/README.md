# Verified models of a collection of Go concurrency patterns

The repository is a set of small concurrent protocols: two worker pools, a recursive or-channel, a token-bucket
limiter, a supervisor that restarts its wards, stream combinators over channels, a condition-variable queue and a
service with a phased shutdown. This project models them in Dafny and proves what they promise, over every run.

## How it is modelled

Every protocol is a state and a deterministic function `Step(state, action)` that yields the next state, or `None`
where the action is not enabled. An action is one atomic operation, lock operation, channel operation or select
choice of one named goroutine, so that all nondeterminism (scheduling, which ready branch a select takes, when timers
fire, what callers do) is in the sequence of actions. `Runs.dfy` defines runs (`Exec`), reachability (`Reaches`) and
induction over runs; a statement about every sequence of actions is a statement about every interleaving. The numbers
of workers, submitters, closers, channels, stages and callers are parameters everywhere.

Code that updates fields is also written as the program has it: classes whose methods are the next atomic operation of
a goroutine and assign to fields in place (`IntakeObject`, `DynPoolObject`, `WorkerPoolObject`, `ServiceObject`,
`SignalQueueObject`, `FanOutObject`, `OrChannelObject`, `RateLimit.Limiter`), and methods with the loops of a single
goroutine (`Tee`, `Bridge`, `Steward`, `Pipeline.MapLoop`, `HealingLoops`). Each such method is proved to make exactly
the step its protocol's `Step` defines and to keep the invariant; the `Run` methods execute any schedule on the object,
so what is proved of reachable states holds of the objects. A goroutine blocked in a lock or channel operation shows as
an operation that is not done and changes nothing.

What the steps do is pinned from outside as well: by laws that relate the state after a run to the actions in it (calls
made, values that arrived, contexts done), by what can come next after which run, by where runs come to rest, and by
whole uninterrupted calls with all their effects.

| files | what they model |
|---|---|
| `Intake`, `IntakeCalls`, `IntakeProgress`, `IntakeObject` | the submit and close protocol the two pools share |
| `WorkerPool`, `WorkerPoolCalls`, `WorkerPoolShutdown`, `WorkerPoolObject` | the fixed pool |
| `DynPool`, `DynPoolStart`, `DynPoolBounds`, `DynPoolExact`, `DynPoolOvershoot`, `DynPoolProgress`, `DynPoolServable`, `DynPoolJobs`, `DynPoolCalls`, `DynPoolShutdown`, `DynPoolWait`, `DynPoolDrain`, `DynPoolObject` | the dynamic pool |
| `OrChannel`, `OrChannelObject` | the or-channel |
| `RateLimit` | the limiter |
| `Steward`, `Healing`, `HealingExact`, `HealingRest`, `HealingLoops` | supervision, the wards and their flattened output |
| `FanOut`, `FanOutObject`, `Pipeline`, `Bridge`, `Tee` | the stream combinators |
| `SignalQueue`, `SignalQueueObject` | the queue with a condition variable |
| `Service`, `ServiceCalls`, `ServiceObject` | the service with graceful shutdown |
| `Options`, `Runs`, `Sums`, `Bags` | optional values, runs, counting, conservation |

## Where the code and its documentation disagree

* `NewDynPool` documents `minWorkers` as the number of workers kept alive. `SubmitWithContext` scales up outside `mu`,
  and pending undos of concurrent calls let idle workers reap below the minimum. With N submitting goroutines the exact
  guarantee is `min - (N - 1)`, or 0 if that is negative (`DynPoolExact.GuaranteeIsExact`); the minimum itself is kept
  exactly when at most one goroutine submits, or the pool cannot scale (`DynPoolExact.MinimumKeptExactly`). With
  `TrySubmit` alone, from any number of goroutines, it is always kept (`DynPoolBounds.TrySubmitBoundsHold`).
* The same undos can leave an open pool with no worker at all, accepted jobs in its queue and nobody in a call. This can
  happen exactly when more than `min` goroutines submit to a pool that can scale (`DynPoolProgress.NeverStrandsExactly`),
  and never with `TrySubmit` alone. A worker comes back as long as there is room in the queue or some call is past its
  send with a chance to start one (`DynPoolServable.ServableExactly`). Otherwise no submission gets as far as
  `maybeScaleUp`: no job is ever taken or accepted again, whatever callers do (`DynPoolServable.StuckForever`).
* `maybeScaleUp` says the count may overshoot by 1. Registered workers never exceed the maximum; the counter of a buffered
  pool goes up to exactly `max + (N - 1)` for N submitting goroutines, and where `min = max` it does so once a `Close` has
  let a worker go (`DynPoolOvershoot.CeilingIsExact`). The comment holds in every run exactly for N <= 2, without a buffer,
  or with `min = max` and no `Close` (`DynPoolOvershoot.OvershootsByOneExactly`).
* `Close` of both pools says the queue is closed so that workers drain it. It cancels the context first, so workers may
  leave with jobs queued; every accepted job is run, in every run, exactly when there is no buffer or nobody submits
  (`WorkerPoolShutdown.DrainsExactly`, `DynPoolDrain.DrainsExactly`).
* `Wait` of the dynamic pool says all workers have exited. A `SubmitWithContext` between its unlock and the end of
  `maybeScaleUp` may start one afterwards; the exact condition is `DynPoolWait.WaitIsFinalExactly`.
* `Service.Shutdown` reports a graceful drain. With no worker and a buffer it reports one with accepted jobs untouched; and
  where one caller of `Shutdown` has lost patience and cancelled, the workers may abandon jobs before another caller's
  first wait ends, and that one reports a graceful drain (`Service.OtherCancels`). The report can be trusted in every run
  exactly when nobody calls, one goroutine calls and there is a worker, or there is neither worker nor buffer
  (`Service.GracefulExactly`).
* With two callers a `Submit` of the service can send on the closed channel (`Service.PanicFreeExactly`).
* `bridge` of healing ranges over a forwarding goroutine which watches the context, and does not itself watch it there.
  After a cancellation the forwarder can drop the value in its hand, the range ends, and the outer select may still take
  the next stream, so a value can be missing in the middle of the output: with ints 1, 2 the wards emit 1, 2 and 1, and
  1, 1 comes out (`HealingExact.LostInTheMiddle`). Of each stream at most the last value emitted is lost
  (`Healing.RestartGrammar`). The output is that of a plain bridge over the wards' streams, in every run, exactly when the
  ints before the first negative are all equal (`HealingExact.RefinesExactly`).
* `doWorkFn` says nothing about an empty list of ints. Its ward then spins without a select once its stream is taken, and
  is never seen to end, cancelled or not (`HealingExact.WardsLeaveExactly`, `HealingExact.SpinsForever`).
* `WaitN` has an error for a zero rate. `NewLimiter` zeroes the burst along with the rate, so the burst error always
  comes first (`RateLimit.ZeroRateAllowsNothing`).
* `Or` and `OrContext` close when any input closes, given at least one input; for no inputs `Or` returns a nil channel.

## Assumptions

Contexts stay cancelled once cancelled. Jobs may return, fail or panic, all of which end them; only the results about
runs coming to rest assume that they end. A select with several ready branches may take any; the non-blocking checks of
`SubmitWithContext` may also be passed when the caller's context is done.

After `Close` of the dynamic pool every idle timer that fires can cost a worker another round, so the bound over all runs
counts them (`DynPoolShutdown.CloseBoundsEveryRun`). The bound by the state alone (`DynPoolShutdown.CloseBoundsPunctualRuns`)
assumes that a timer armed after `Close` has returned is not ready at its worker's next select, where the cancellation is;
so timers fire only for workers that were waiting in their select when `Close` returned, once each.

## Model

| member | source | states |
|---|---|---|
| DynPool.InvStep | pools/workerpooldyn/workerpooldyn.go:92-261 | every atomic step keeps: counter = registered workers + undos owed, WaitGroup exact, registered workers <= max, workers only leave by CAS from above min until cancellation, and the whole intake invariant |
| DynPoolBounds.BoundsHold | pools/workerpooldyn/workerpooldyn.go:227-244 | in every run with at most n scale-up calls in flight: at most n-1 undos, registered and busy workers <= max, counter <= max+n-1, registered >= min-(n-1) until cancellation |
| DynPoolBounds.SubmitterBoundsHold | pools/workerpooldyn/workerpooldyn.go:183-219 | the same in every run at all, for n submitting goroutines |
| DynPoolBounds.TrySubmitBoundsHold | pools/workerpooldyn/workerpooldyn.go:156-179 | without SubmitWithContext, for any number of goroutines, the bounds hold with n = 1: never fewer than min workers before cancellation, no undo ever owed |
| DynPoolExact.ShortfallReached | pools/workerpooldyn/workerpooldyn.go:203-206 | every shortfall d below the number of submitters (and at most min) is reached by a run, ending with exactly min-d registered workers |
| DynPoolExact.GuaranteeIsExact | pools/workerpooldyn/workerpooldyn.go:47 | a number of workers is kept until cancellation in every run if and only if it is at most the guarantee: min when calls cannot overlap or the pool cannot scale, else min-(subs-1) cut off at 0 |
| DynPoolExact.MinimumKeptExactly | pools/workerpooldyn/workerpooldyn.go:47 | the documented minimum is kept in every run if and only if at most one goroutine submits, or the queue has no capacity, or min = max |
| DynPoolExact.FixedSizeHolds | pools/workerpooldyn/workerpooldyn.go:227-233 | with queue size 0, or min = max, the counter and the registered workers are exactly min until cancellation |
| DynPoolOvershoot.CeilingIsExact | pools/workerpooldyn/workerpooldyn.go:234-243 | a number bounds the counter in every run if and only if it is at least the ceiling: max+subs-1, or min where nobody can ever add |
| DynPoolOvershoot.OvershootsByOneExactly | pools/workerpooldyn/workerpooldyn.go:234-235 | the counter is at most max+1 in every run, as the comment says, if and only if at most two goroutines submit, or the queue has no capacity, or min = max and nobody closes |
| DynPoolOvershoot.OvershootByScaling | pools/workerpooldyn/workerpooldyn.go:236-243 | below the maximum, every overshoot k smaller than the number of submitters is reached by a run |
| DynPoolOvershoot.OvershootByClosing | pools/workerpooldyn/workerpooldyn.go:98-102 | at min = max too, after a cancellation has lowered the counter |
| DynPoolProgress.NeverStrandsExactly | pools/workerpooldyn/workerpooldyn.go:90-148 | an open pool comes to rest only with an empty queue, in every run, if and only if at most min goroutines submit, or the queue has no capacity, or min = max |
| DynPoolProgress.DeadReached | pools/workerpooldyn/workerpooldyn.go:172-178 | otherwise a run ends with the pool open and at rest, no call in progress, every worker gone, every scale slot off and the queue full |
| DynPoolServable.ServableExactly | pools/workerpooldyn/workerpooldyn.go:98-244 | from a reachable open state with a backlog, with any calls in progress, some continuation takes a job if and only if there is a registered worker, room in the queue, or a call between its send and the counter test of maybeScaleUp's add |
| DynPoolServable.StuckForever | pools/workerpooldyn/workerpooldyn.go:172-178 | otherwise no continuation, by any callers, takes or accepts a job again |
| DynPoolServable.AlwaysServableExactly | pools/workerpooldyn/workerpooldyn.go:92-244 | from every reachable open state with a backlog some continuation takes a job, in every run, if and only if at most min goroutines submit, or the queue has no capacity, or min = max |
| DynPoolServable.StrandedExactly | pools/workerpooldyn/workerpooldyn.go:203-216 | an open pool with a backlog, no worker and nobody in a call can be brought to take a job again if and only if its queue has room |
| DynPoolProgress.TrySubmitNeverStrands | pools/workerpooldyn/workerpooldyn.go:156-179 | without SubmitWithContext an open pool at rest has an empty queue, for any number of goroutines |
| DynPoolJobs.JobsConserved | pools/workerpooldyn/workerpooldyn.go:98-121 | accepted jobs in order are those taken then those queued; each taken job is with one worker or finished, once; rejected jobs are never taken, and each was refused for a reason that holds; queue within capacity; no send on or second close of a closed channel |
| DynPoolJobs.SubmitKeepsTrying | pools/workerpooldyn/workerpooldyn.go:181-219 | over every run, the job of a SubmitWithContext whose context is not done is accepted, or still pending, or refused with ErrClosed because the pool has closed |
| DynPoolCalls.WholeCall | pools/workerpooldyn/workerpooldyn.go:156-244 | a call of either kind that nobody interferes with appends its job and, if the counter is below the maximum, starts one worker; nothing else changes |
| DynPoolCalls.UnbufferedCall | pools/workerpooldyn/workerpooldyn.go:156-244 | without a buffer its job goes to a worker in its select, which runs it, and no worker is started |
| DynPoolCalls.WholeRun | pools/workerpooldyn/workerpooldyn.go:102-128 | a worker in its select runs the head of the queue and is back with its timer re-armed |
| DynPoolCalls.WholeReap | pools/workerpooldyn/workerpooldyn.go:130-145 | a worker whose idle timer has fired leaves the counter and the WaitGroup if the counter is above the minimum, and waits again otherwise, by its own steps with no other timer; a failed compare-and-swap is tried again |
| DynPoolCalls.WholeExit | pools/workerpooldyn/workerpooldyn.go:100-107 | a worker in its select takes itself off counter and WaitGroup and is gone, once the context is cancelled or the queue closed and drained |
| DynPoolShutdown.CloseBoundsEveryRun | pools/workerpooldyn/workerpooldyn.go:246-256 | after Close has returned, the steps of workers and scale-up calls in any continuation are bounded by a measure of the state, plus 3 for every idle timer that fires |
| DynPoolShutdown.CloseBoundsPunctualRuns | pools/workerpooldyn/workerpooldyn.go:95-147 | if timers re-armed after Close are not ready at the next select, the bound is the measure plus 3 for each worker waiting in its select at Close |
| DynPoolShutdown.RestMeansGone | pools/workerpooldyn/workerpooldyn.go:92-148 | when the pool can move no further after Close, all workers are gone, counter and WaitGroup are zero |
| DynPoolShutdown.CallsNeverDeadlock | pools/workerpooldyn/workerpooldyn.go:156-256 | where no submitting or closing goroutine can go on, maybeScaleUp included, none is in a call and mu is free |
| DynPoolWait.WaitReturnsOnlyWhenGone | pools/workerpooldyn/workerpooldyn.go:258-261 | a zero WaitGroup means every worker has exited |
| DynPoolWait.WaitIsFinalExactly | pools/workerpooldyn/workerpooldyn.go:203-206 | after Close and Wait no continuation has a worker if and only if no call is left in maybeScaleUp that may still start one |
| DynPoolWait.WaitAlwaysFinalExactly | pools/workerpooldyn/workerpooldyn.go:258-261 | Wait is final in every run if and only if the pool has no queue capacity or nobody submits |
| DynPoolWait.TrySubmitWaitFinal | pools/workerpooldyn/workerpooldyn.go:163-178 | with only TrySubmit calls in progress Wait is always final, because they scale up under mu |
| DynPoolDrain.DrainsExactly | pools/workerpooldyn/workerpooldyn.go:246-256 | after Close and at rest every accepted job has been run, in every run, if and only if the queue has no capacity or nobody submits |
| DynPoolDrain.LeftBehind | pools/workerpooldyn/workerpooldyn.go:98-102 | a run of the dynamic pool that ends with an accepted job left in the queue |
| DynPoolStart.ConstructionIsInitial | pools/workerpooldyn/workerpooldyn.go:76-88 | however the workers started so far run between the operations of the spawn loop, NewDynPool returns a pool in a state that a pool with all workers in their first select reaches |
| DynPoolObject.DynamicPool.constructor | pools/workerpooldyn/workerpooldyn.go:51-88 | the spawn loop, with the workers started so far making any moves before each of its operations, ends in a state reachable from the initial one, and in the initial one if they make none |
| DynPoolObject.DynamicPool.Submit | pools/workerpooldyn/workerpooldyn.go:156-219 | the next operation of a submitting call, entering maybeScaleUp after its send, is the protocol's step and keeps the invariant |
| DynPoolObject.DynamicPool.MaybeScaleUp | pools/workerpooldyn/workerpooldyn.go:227-244 | load, backlog test, optimistic add, start or undo: each is the protocol's step on the updated fields |
| DynPoolObject.DynamicPool.HandOff | pools/workerpooldyn/workerpooldyn.go:170-176 | an unbuffered send succeeds only by meeting a worker in its select, which gets the job |
| DynPoolObject.DynamicPool.Work | pools/workerpooldyn/workerpooldyn.go:98-147 | the next operation of a worker is the protocol's step and keeps the invariant |
| DynPoolObject.DynamicPool.CompareAndSwap | pools/workerpooldyn/workerpooldyn.go:133-144 | a worker leaves and lowers the counter exactly if the counter still is what it loaded, and loads again otherwise |
| DynPoolObject.DynamicPool.Close | pools/workerpooldyn/workerpooldyn.go:248-256 | the next operation of Close is the protocol's step and keeps the invariant |
| DynPoolObject.DynamicPool.Wait | pools/workerpooldyn/workerpooldyn.go:258-261 | it returns only when every worker is gone, and blocks only while one is present or announced |
| DynPoolObject.Run | pools/workerpooldyn/workerpooldyn.go:51-261 | a pool object under any schedule is in the state the protocol reaches by it |
| Intake.InvStep | pools/workerpool/workerpool.go:98-172 | every step keeps mutual exclusion on mu, the once-only close order, no panic, order, capacity and the identity of jobs |
| Intake.SafeStep | pools/workerpool/workerpool.go:105-154 | no step of any number of submitters and closers sends on the closed queue or closes a channel twice |
| Intake.CloseOrder | pools/workerpool/workerpool.go:164-172 | the queue is closed only after the cancellation, and that only after closedCh |
| Intake.JobFacts | pools/workerpool/workerpool.go:115-120 | jobs taken are a prefix of jobs accepted, without repetition; no rejected job is taken or queued; ErrClosed was returned only after closedCh was closed, the context's error only by SubmitWithContext, no room only by TrySubmit |
| Intake.ClosedStep | pools/workerpool/workerpool.go:136-154 | once Close has returned nothing more is accepted and no call gets past its send, whatever submitters do |
| IntakeCalls.FateOfACall | pools/workerpool/workerpool.go:98-155 | over every run, whatever other goroutines do, the job of a call is accepted, is still pending in it, or has been refused for a reason the run gives: closedCh is closed, the context of this caller was done, or the one send of a TrySubmit met a full queue |
| IntakeCalls.KeepsTrying | pools/workerpool/workerpool.go:125-155 | so a SubmitWithContext whose context is not done is never refused on an open intake, and on a closed one only with ErrClosed |
| IntakeCalls.GetsThrough | pools/workerpool/workerpool.go:98-155 | with room in an open queue and mu free, the steps of a pending call alone take its job into the queue |
| IntakeCalls.GivesUp | pools/workerpool/workerpool.go:128-134 | a SubmitWithContext without the lock returns the context's error once its context is done, in the fixed pool after at most one more sleep |
| IntakeCalls.LearnsOfClose | pools/workerpooldyn/workerpooldyn.go:185-216 | once closedCh is closed a beginning or waiting call returns ErrClosed; in the dynamic pool out of its wait |
| IntakeCalls.CloseReturnsClosed | pools/workerpool/workerpool.go:164-172 | over every run, when a call of Close in progress has returned everything is closed, whichever goroutine closed it |
| IntakeProgress.NoDeadlock | pools/workerpool/workerpool.go:98-172 | where no call of any submitter or closer can go on, none is in progress and mu is free |
| IntakeProgress.ClosingBoundsCalls | pools/workerpool/workerpool.go:98-172 | once closedCh is closed the calls in progress take a bounded number of steps, in every run, and each new call only one; so Close and every submit call return |
| IntakeObject.Front.Submit | pools/workerpool/workerpool.go:98-155 | the next operation of TrySubmit or SubmitWithContext is the protocol's step and keeps the invariant |
| IntakeObject.Front.Locked | pools/workerpool/workerpool.go:106-154 | lock, re-check, non-blocking send, unlock: each is the protocol's step on the updated fields |
| IntakeObject.Front.Unlocked | pools/workerpool/workerpool.go:126-134 | the checks without the lock and the retry wait are the protocol's steps |
| IntakeObject.Front.TrySubmit | pools/workerpool/workerpool.go:96-121 | uninterrupted, it returns ErrClosed if closed, acceptance if there is room, refusal otherwise; an accepted job is appended to the queue, and nothing else changes |
| IntakeObject.Front.SubmitWithContext | pools/workerpool/workerpool.go:123-155 | one uninterrupted round returns ErrClosed if closed, appends the job if there is room, and otherwise releases mu and goes on waiting with the job still pending; nothing else changes |
| IntakeObject.Front.Close | pools/workerpool/workerpool.go:164-172 | the next operation of Close is the protocol's step and keeps the invariant |
| IntakeObject.Front.Receive | pools/workerpool/workerpool.go:72-79 | a worker receives the head of the queue, exactly if there is one |
| WorkerPool.JobsConserved | pools/workerpool/workerpool.go:69-94 | conservation of jobs in order for the fixed pool, at most one job per worker being run, and no panic of a channel operation |
| WorkerPool.SubmitKeepsTrying | pools/workerpool/workerpool.go:123-155 | over every run, the job of a SubmitWithContext whose context is not done is accepted, or still pending, or refused with ErrClosed because the pool has closed |
| WorkerPoolCalls.WholeCall | pools/workerpool/workerpool.go:98-155 | a call of either kind that nobody interferes with appends its job; nothing else changes |
| WorkerPoolCalls.UnbufferedCall | pools/workerpool/workerpool.go:98-155 | without a buffer its job goes to a worker in its select, which runs it |
| WorkerPoolCalls.WholeRun | pools/workerpool/workerpool.go:69-94 | a worker in its select runs the head of the queue and is back in its select |
| WorkerPoolCalls.WholeExit | pools/workerpool/workerpool.go:71-79 | a worker in its select leaves once the context is cancelled or the queue closed and drained |
| WorkerPoolShutdown.CloseBoundsEveryRun | pools/workerpool/workerpool.go:162-172 | after Close the workers take at most 2 * queued + their ranks more steps, whatever callers do |
| WorkerPoolShutdown.RestMeansGone | pools/workerpool/workerpool.go:174-177 | when they can move no further all have left, and every job received was run |
| WorkerPoolShutdown.CallsNeverDeadlock | pools/workerpool/workerpool.go:98-172 | where no call of the fixed pool can go on none is in progress and mu is free |
| WorkerPoolShutdown.LeftBehind | pools/workerpool/workerpool.go:71-79 | a run that ends with an accepted job left in the queue |
| WorkerPoolShutdown.DrainsExactly | pools/workerpool/workerpool.go:162-172 | every accepted job is run, in every run, if and only if the queue has no capacity or nobody submits |
| WorkerPoolShutdown.OpenPoolGetsToEveryJob | pools/workerpool/workerpool.go:68-94 | an open fixed pool comes to rest only with every accepted job run and all workers in their select |
| WorkerPoolObject.FixedPool.constructor | pools/workerpool/workerpool.go:42-66 | the start loop produces the initial state |
| WorkerPoolObject.FixedPool.Work | pools/workerpool/workerpool.go:69-94 | the next operation of a worker is the protocol's step and keeps the invariant and the WaitGroup exact |
| WorkerPoolObject.FixedPool.Wait | pools/workerpool/workerpool.go:174-177 | it returns exactly when every worker has left |
| WorkerPoolObject.Run | pools/workerpool/workerpool.go:42-177 | a pool object under any schedule is in the state the protocol reaches by it |
| OrChannel.HalfAsManyGoroutines | flows/or/or.go:19-47 | Or over n channels starts floor(n/2) goroutines; the recursion is well-founded |
| OrChannel.EveryChannelWatched | flows/or/or.go:31-43 | every channel handed to a level is waited on by some goroutine from there on |
| OrChannel.Linked | flows/or/or.go:38-43 | each goroutine but the last waits on the next one's channel, and some later one waits on its own |
| OrChannel.NeverEarly | flows/or/or.go:27-46 | no internal or returned channel is closed in any reachable state unless an input is |
| OrChannel.EveryRunEnds | flows/or/or.go:27-46 | the goroutines take at most four steps each, in every run |
| OrChannel.NothingLeaks | flows/or/or.go:27-46 | once an input is closed, a run at rest has all floor(n/2) goroutines finished and their channels closed |
| OrChannel.OrMeaning | flows/or/or.go:19-47 | at rest the returned channel is closed if and only if some input is |
| OrChannel.OrContextMeaning | flows/or/or.go:49-53 | the same for OrContext, with the context as one more input |
| OrChannelObject.Goroutines.Perform | flows/or/or.go:27-46 | starting the next level, waking on a closed channel and closing orDone are the protocol's steps |
| OrChannelObject.Run | flows/or/or.go:19-47 | the goroutines under any schedule are in the state the protocol reaches by it |
| RateLimit.RefillsMerge | scale/ratelimit/ratelimit.go:55-70 | a refill in between, with nothing taken, changes nothing |
| RateLimit.GrantedExactly | scale/ratelimit/ratelimit.go:85-95 | after any attempts of any callers with any clock, n tokens are granted if and only if n <= burst and no window from an earlier grant to now, n included, exceeds burst + rate * length |
| RateLimit.WaitIsAttempts | scale/ratelimit/ratelimit.go:85-120 | for a positive rate: nothing asked, or more than the burst, returns without touching the bucket; any other call makes one attempt for n tokens in each of its rounds, among those of others, and returns in the first round with a verdict: granted, or too late for its deadline even with half a nanosecond of refill more, or its context done |
| RateLimit.FailFastIsSound | scale/ratelimit/ratelimit.go:97-105 | where the deadline test fails, the tokens would not be there at the deadline whatever other callers do |
| RateLimit.TooLateExactly | scale/ratelimit/ratelimit.go:97-105 | the deadline test fails if and only if, refilled from now to the deadline, the bucket would lack half a nanosecond of refill or more |
| RateLimit.DeadlineExceededIsSound | scale/ratelimit/ratelimit.go:101-105 | the same for every WaitN call that returns DeadlineExceeded, after any number of rounds |
| RateLimit.WaitIsNearlyEnough | scale/ratelimit/ratelimit.go:97-99 | a caller that sleeps the rounded wait lacks less than half a nanosecond of refill, if nobody else takes tokens |
| RateLimit.OneMoreNanosecond | scale/ratelimit/ratelimit.go:97-99 | with so little lacking the next wait is zero, and one more nanosecond is enough |
| RateLimit.ThreeRoundsAreEnough | scale/ratelimit/ratelimit.go:86-120 | an uncontended call without a deadline is granted within three rounds |
| RateLimit.ZeroRateAllowsNothing | scale/ratelimit/ratelimit.go:37-52 | with the rate zero no positive number is ever allowed, and the error is that of the burst |
| RateLimit.Limiter.constructor | scale/ratelimit/ratelimit.go:38-52 | a full bucket, or the empty bucket of no burst for a rate of zero or less |
| RateLimit.Limiter.AdvanceTo | scale/ratelimit/ratelimit.go:55-70 | refills by elapsed time, capped at the burst; a clock that has not moved on changes nothing |
| RateLimit.Limiter.WaitN | scale/ratelimit/ratelimit.go:74-121 | the retry loop's outcome and final bucket, with all error branches, for any interference and any clock |
| Steward.StewardIsSafe | scale/healing/healing.go:109-156 | over every run, for timers of either kind: one uncancelled ward context at a time, none after the exit; a timeout only without a heartbeat since the last arming; Stop-then-drain never blocks |
| Steward.RestartsExactly | scale/healing/healing.go:109-156 | over every run: one ward is started at first and one for each timeout and each ward gone away, at once after the live one is cancelled; the timer is armed with each ward and each heartbeat; the exit comes exactly when the context is done |
| Steward.PossibleExactly | scale/healing/healing.go:118-155 | what can happen after a run: a timeout if and only if the timer has fired since it was armed, and until the context is done everything else at any time |
| Steward.InvStep | scale/healing/healing.go:118-155 | every outcome of the monitor's select keeps that |
| Steward.Steward | scale/healing/healing.go:103-157 | the nested loops perform exactly the protocol's steps for the given select outcomes |
| Healing.RestartGrammar | scale/healing/healing.go:176-228 | with any number of wards started and cancelled at any time, the output is a prefix of the concatenation of one block per published ward, in order; each block is a prefix of the ints before the first negative, or of the ints repeated, and all its ward emitted but for at most the last value |
| Healing.OutputNeverNegative | scale/healing/healing.go:200-204 | no negative value is ever output |
| Healing.RefinesBridge | scale/healing/healing.go:44-69 | until the cancellation, a plain bridge fed with the streams the wards emitted, in the order they were taken, reaches the very state and output of the two-hop bridge; the output is a prefix of their concatenation, at most two values behind, and all of it between two streams |
| HealingExact.LostInTheMiddle | scale/healing/healing.go:44-69 | a run in which a cancellation makes the forwarder drop any chosen int, while the first int of the next ward still comes through |
| HealingExact.RefinesExactly | scale/healing/healing.go:44-69 | the output is, in every reachable state, cancelled or not, one that a plain bridge over the streams the wards emitted has, if and only if the ints before the first negative are all equal |
| HealingExact.WardsLeaveExactly | scale/healing/healing.go:184-223 | a cancelled ward can always leave, in every run, if and only if the list of ints is not empty |
| HealingExact.SpinsForever | scale/healing/healing.go:199-222 | with an empty list a ward whose stream has been taken never ends |
| HealingRest.RestMeansReplayed | scale/healing/healing.go:176-228 | with nobody cancelled and a non-empty list, at rest every ward has been taken and has left, and the output is exactly the ints before the first negative, once for each ward |
| HealingRest.RestMeansOver | scale/healing/healing.go:44-69 | after a cancellation rest means the bridge has closed its output, the forwarder has stopped and all wards are gone, but those that spin over no ints, whether or not the consumer reads |
| HealingLoops.WardLoop | scale/healing/healing.go:184-223 | the ward's loops emit one int per receive, over and over from the start, fail exactly at a negative, leave exactly when the context is done, and otherwise stop only where nothing on offer comes next; with no ints they reach no further select |
| HealingLoops.OfferValue | scale/healing/healing.go:205-219 | the innermost loop offers one value until it is received or the context is done, and keeps the heartbeat channel full from a tick to the next read |
| HealingLoops.Take | scale/healing/healing.go:72-93 | take hands on what arrives in order, at most n, and closes after n values, at the end of the input, or at cancellation; otherwise it stops only where nothing on offer comes next |
| Bridge.OutputFlattens | flows/bridge/bridge.go:59-97 | the output is a prefix of the concatenation of what was received, one value behind at most, and all of it when the outer stream closes |
| Bridge.EmitsConcatenation | flows/bridge/bridge.go:59-97 | for inner streams with given contents, the output is a prefix of their concatenation, and the whole of it when the outer stream closes |
| Bridge.FedExactly | flows/bridge/bridge.go:59-97 | inner streams with given contents bring an uncancelled bridge to a state if and only if it has read them in order, each to its end before the next, and handed on all but the value in hand |
| Bridge.OutputsExactly | flows/bridge/bridge.go:59-97 | over inner streams with given contents the possible outputs are exactly the prefixes of their concatenation |
| Bridge.ReceivesWhatArrives | flows/bridge/bridge.go:59-97 | over every run, what counts as received is every value that arrived, and as many are output as were accepted |
| Bridge.PossibleExactly | flows/bridge/bridge.go:61-95 | what can come after a run: nothing once the context is done or the outer stream closed, the outer stream only between two inner ones, a value only when the last has been accepted |
| Bridge.Bridge | flows/bridge/bridge.go:61-95 | the nested loops perform exactly the protocol's steps for the given select outcomes |
| Tee.OutputsFollow | flows/tee/tee.go:21-55 | both outputs are prefixes of the values received, at most one behind, and equal to them on input close |
| Tee.ReceivesWhatArrives | flows/tee/tee.go:21-55 | over every run, what counts as received is every value that arrived, and the outputs have accepted as often as they are long |
| Tee.PossibleExactly | flows/tee/tee.go:25-52 | what can come after a run: nothing at the end, an output exactly while it is behind, the next value exactly when neither is |
| Tee.Tee | flows/tee/tee.go:25-52 | the loops with o1 and o2 set to nil perform exactly the protocol's steps |
| FanOut.Conserved | flows/fanoutin/fanoutin.go:43-81 | values received are those output, in hand or dropped, with at most w in hand or dropped; output p comes from an input at most p+w-1; no send on the closed output |
| FanOut.CarriesEverythingExactly | flows/fanoutin/fanoutin.go:43-81 | a closed, uncancelled output carries every input value once, in every run, if and only if there is a worker or nothing to carry |
| FanOut.OutputIsPermutation | flows/fanoutin/fanoutin.go:60-66 | then the mapped output is a permutation of the mapped input |
| FanOut.EveryRunEnds | flows/fanoutin/fanoutin.go:49-78 | in every run the workers and the closing goroutine take at most 2n + w + 1 steps, for n values and w workers |
| FanOut.RestMeansClosed | flows/fanoutin/fanoutin.go:75-78 | at rest after input close or cancellation all workers are gone and the output is closed |
| FanOut.RestMeansComplete | flows/fanoutin/fanoutin.go:43-81 | uncancelled and with a worker, rest means every value is output once, before the input has closed too; then the source can close it, and with it closed the output is closed |
| FanOut.NothingLeaks | flows/fanoutin/fanoutin.go:62-66 | after a cancellation all workers leave and the output closes without anybody reading it |
| FanOutObject.Stage.Work | flows/fanoutin/fanoutin.go:49-69 | the next operation of a worker is the protocol's step and keeps the invariant |
| FanOutObject.Run | flows/fanoutin/fanoutin.go:43-81 | a stage under any schedule is in the state the protocol reaches by it |
| Pipeline.OutputIsPrefix | flows/pipeline/pipeline.go:42-64 | a chain of k stages outputs, in every reachable state, a prefix of the composed function mapped over the source, with at most k values on the way |
| Pipeline.TypedOutputIsPrefix | flows/pipeline/pipeline.go:70-74 | a stage from T to U followed by one from U to W outputs a prefix of their composition mapped over the source, at most two behind |
| Pipeline.ClosedOutputIsWhole | flows/pipeline/pipeline.go:45-53 | an uncancelled closed output is the whole mapped source |
| Pipeline.EveryRunEnds | flows/pipeline/pipeline.go:46-61 | in every run at most one hand-over for each value on each of the k+1 channels, and one exit for each stage |
| Pipeline.RestMeansWhole | flows/pipeline/pipeline.go:42-64 | with a closed source, no cancellation and a reading consumer, rest means all stages closed and everything delivered |
| Pipeline.RestMeansGone | flows/pipeline/pipeline.go:47-49 | after a cancellation rest means all stages have closed, whether or not the consumer reads |
| Pipeline.MapLoop | flows/pipeline/pipeline.go:44-62 | the loop of one stage, from any type to any other, leaves exactly what the chain needs: its output is fn of what arrived, at most one behind, and all of it on input close; the input's close and the cancellation end it at once |
| SignalQueue.NoWakeUpIsLost | primitives/cond/signal.go:30-49 | popped then queued items are the pushed ones in order; with the lock free, while anybody sleeps there are at most as many items as woken poppers on their way |
| SignalQueue.PushedAreAsked | primitives/cond/signal.go:30-49 | over every run, what is popped and what is queued are the values push was called with, less those not appended yet; in the order of the calls if one goroutine pushes |
| SignalQueue.RestMeansDelivered | primitives/cond/signal.go:30-49 | at rest every value pushed is popped or queued, and as many calls of pop have returned as there are both values and calls |
| SignalQueue.RestMeansEmptyOrNobody | primitives/cond/signal.go:38-49 | when no call can move, no item and sleeper coexist, and only sleepers are left in their calls |
| SignalQueue.EveryRunEnds | primitives/cond/signal.go:30-49 | in every run, with any waiting and barging, the calls take at most 8 steps for each push and 4 for each pop |
| SignalQueueObject.Queue.Push | primitives/cond/signal.go:30-36 | the next operation of push is the protocol's step and keeps the invariant |
| SignalQueueObject.Queue.Pop | primitives/cond/signal.go:38-49 | the next operation of pop, with its wait loop, is the protocol's step and keeps the invariant |
| SignalQueueObject.Queue.PushCall | primitives/cond/signal.go:30-36 | uninterrupted, push appends its value and wakes one of the sleepers |
| SignalQueueObject.Queue.PopCall | primitives/cond/signal.go:38-49 | uninterrupted, pop returns the oldest item, or sleeps on an empty queue |
| SignalQueueObject.Run | primitives/cond/signal.go:30-49 | a queue under any schedule is in the state the protocol reaches by it |
| Service.JobsConserved | orchestration/shutdown/shutdown.go:43-71 | for any callers: accepted jobs are processed, abandoned, in hand or queued, with at most one per worker abandoned or in hand, and none abandoned before the cancellation |
| Service.PanicFreeExactly | orchestration/shutdown/shutdown.go:74-86 | no run sends on the closed channel or closes twice if and only if at most one goroutine makes the calls |
| Service.SendAfterClose | orchestration/shutdown/shutdown.go:75-86 | with two callers, a run in which Submit sends on the closed channel |
| Service.GracefulDrain | orchestration/shutdown/shutdown.go:92-110 | for one owner and at least one worker, if the first Shutdown returns through done before the soft timeout, exactly the accepted jobs were processed |
| Service.GracefulExactly | orchestration/shutdown/shutdown.go:92-113 | for any number of callers, that promise holds in every run if and only if nobody calls, or there is neither worker nor queue capacity, or one goroutine calls and there is a worker |
| Service.OtherCancels | orchestration/shutdown/shutdown.go:95-113 | with two callers and a worker, a run in which one Shutdown reports a graceful drain because another has cancelled, with a job abandoned |
| Service.ShutdownBoundsEveryRun | orchestration/shutdown/shutdown.go:47-71 | once the jobs channel is closed the workers take a number of steps bounded by the state, in every continuation, whatever callers do |
| Service.RestMeansDone | orchestration/shutdown/shutdown.go:99-123 | when they can move no further all have left, so that done closes and every waiting Shutdown can return through it |
| ServiceCalls.SubmitsAccounted | orchestration/shutdown/shutdown.go:74-86 | over every run, each job submitted is accepted, still in its call, or refused, and refused are exactly those that found the service closed or the queue full |
| ServiceCalls.RestMeansProcessed | orchestration/shutdown/shutdown.go:47-71 | where the workers of an uncancelled service have come to rest, open or closed, every accepted job is processed |
| ServiceCalls.ShutdownsAccounted | orchestration/shutdown/shutdown.go:92-123 | over every run, each Shutdown is in progress or has returned; those returned found the intake closed, had the context cancelled unless they returned from the soft wait, and saw all workers gone unless they gave up |
| ServiceCalls.CallsEnd | orchestration/shutdown/shutdown.go:74-123 | in every run without a panic, at most two steps for each Submit and six for each Shutdown |
| ServiceCalls.CallsNeverStuck | orchestration/shutdown/shutdown.go:74-123 | a call in progress can always go on, if only by its timeout |
| ServiceObject.JobService.Submit | orchestration/shutdown/shutdown.go:74-86 | the check and the unlocked non-blocking send are the protocol's steps |
| ServiceObject.JobService.SubmitCall | orchestration/shutdown/shutdown.go:74-86 | uninterrupted, Submit accepts if and only if the service is open and the queue has room, and changes nothing else |
| ServiceObject.JobService.Shutdown | orchestration/shutdown/shutdown.go:92-116 | the phases between the waits are the protocol's steps |
| ServiceObject.JobService.Await | orchestration/shutdown/shutdown.go:107-123 | each wait ends through done exactly when all workers have left, or by its timeout |
| ServiceObject.JobService.Work | orchestration/shutdown/shutdown.go:48-67 | the next operation of a worker is the protocol's step and keeps the invariant |
| ServiceObject.Run | orchestration/shutdown/shutdown.go:30-124 | a service under any schedule is in the state the protocol reaches by it |

## Left out

- Printing, the registry, flag parsing, `main` and every example function: drivers only.
- The I/O and library code (TCP echo, contextio, errgroup, the weighted semaphore of x/sync): I/O, or thin use of libraries whose code is not part of the repository.
- `pools/semaphore/semaphore.go`, once, atomic, waitgroup, sync.Pool, rwmutex, generator, selectloop, heartbeat: one-step or library behaviour that would only add easy members.
- `primitives/cond/broadcast.go`: it signals that it has subscribed before it takes the lock, so that a Broadcast can come before the Wait.
- `flows/ordone` and the forwarding loop of healing: as loops they are `Pipeline.MapLoop` with the identity; healing's is also part of `Healing.Step`.
- The `Source` generators and `ChunkedSource`: sources appear as given sequences that may close once exhausted.
- Wall-clock time outside the limiter: a timer is an event that may fire once armed.
- Floating-point rounding in the limiter: tokens are reals; only the explicit rounding to whole nanoseconds is modelled. Overflow of a duration is not.
- The 32-bit width of the dynamic pool's counter: it is at most max plus the calls in flight minus one.
- Spare capacity of slices in `Or` and `OrContext`: `append` yields a fresh sequence.
- The panics of the pool constructors on invalid arguments: `Config.Valid` is what they let through.
- Fairness between submitters, poppers or limiter callers: the code promises none.
- Pipeline.OutputIsPrefix: the stages of a chain share one value type; a chain through several types is the chain over their tagged union, shown for two stages by Pipeline.TypedOutputIsPrefix.
- Job bodies and mapped functions: opaque; jobs may return, fail or panic.
- Healing.RefinesBridge: covers the states before the cancellation; afterwards the refinement is false, and HealingExact.RefinesExactly says when it holds. The wards' streams are never nil, so the nil inner stream of the plain bridge does not arise.
- Steward.Steward: starting a ward, and what the ward does with its context, are events of the history only.
