# Dev Harness: a verified model

Dev Harness runs a graph of code chunks under a rate-limiting broker and a terminal
interface. This project models the parts of it that hold an invariant, an order, a
bound or a round trip, and proves what they are for:

* the scheduler: chunk graph validation and ordering (`CycleFinder`, `TopologicalOrder`,
  `FirstCycle`, `ChunkDag` over `Graph` and `IdOrder`), the bounded worker pool
  (`PoolModel`, `PoolOutcome`, `OneWorker`, `PoolResult`, `WorkerPool`), the retry loop around it (`Pipeline`), and the wave
  planner (`DispatchPlan`);
* the broker: token bucket (`Bucket`), RESERVE/COMMIT/RELEASE over the reservation store,
  cost governor and kill switch (`Broker`, `BrokerBalance`, `BrokerLimits`,
  `BrokerDaemon`), and the local limiter under every interleaving (`LocalLimiter`);
* buffers against their history: throttle (`Throttle`), backpressure queue and fan-out
  (`Events`, `Queue`, `BackpressureQueue`, `Fanout`), artifact store (`Artifacts`) and
  scrollback (`Scrollback`);
* text and bytes: secret redaction and diff rendering (`Redact`, `Render`), framing
  (`Framing`);
* graph and arithmetic helpers: differential test selection (`Differential`), prompt
  budgets (`Context`).

Where the source updates an object in place the model has a class with those fields, and
each method is proved equal to a function on values; the properties over whole runs are
lemmas about those functions. Clock readings, reservation ids, the outcome of each
executor, what it writes meanwhile, and the order in which futures finish are parameters or
arbitrary choices.

## Where the code and its documentation disagree

The model follows the code. Each of these has a lemma with a concrete input, or with a
family of them, and a lemma that says exactly when the promise is kept.

* Queue: a token put pops the left end whatever is there, so control events do drop
  (`Queue.TokenEvictsControl`, `Queue.PutKeepsControlsIff`).
* Reservations: COMMIT keeps the reservation, so a later RELEASE credits it again
  (`BrokerBalance.CommitThenReleaseCreatesTokens`); the bucket credited is the one the
  message names, not the reservation's (`BrokerBalance.WrongProviderMovesTokens`); both
  are settled by `BrokerBalance.ReleaseKeepsBalanceIff` and
  `BrokerBalance.CommitKeepsBalanceIff`. Reaping returns nothing to the bucket
  (`BrokerBalance.ReapingLosesTokens`, `BrokerBalance.ReapLoses`).
* Limiter: COMMIT frees no permit (`BrokerLimits.CommittedPermitSaturates`,
  `BrokerLimits.PermitsMatchOpenIff`).
* Worker pool: the executor shows COMPLETED before the tests ran, so with two workers a
  dependent can start on a chunk that then fails. A round that begins with nothing in
  flight makes no such claim, so a third chunk must have settled meanwhile
  (`PoolModel.TwoWorkersBreakOrder`, `PoolModel.EarlyClaimTakesThree`,
  `PoolModel.NoEarlyClaim`, `PoolModel.OrderSafeIff`).
* Pipeline: `integrate` can be entered with an unfinished chunk, one that started
  IN_PROGRESS (`Pipeline.InProgressChunkReachesIntegrate`) or, from an all-PENDING start,
  one whose executor raised together with another (`Pipeline.TwoRaisesReachIntegrate`);
  `Pipeline.VisitEntryIff` says exactly when.
* Prompt budget: it can be exceeded below 2 tokens per message (`Context.EmptyMessageExceedsBudget`,
  `Context.ShapedFitsIff`), and a trace cap with `tail=0` keeps all lines
  (`Context.CapWithoutTailGrows`, `Context.CapIsBoundedIff`).
* Throttle: a drain given a `now` ahead of the clock can flush within the interval
  (`Throttle.HastyDrainsFlushEveryTime`, `Throttle.AllOnTimeIff`).
* Artifact store: secrets inside lists, objects and keys are stored as they are
  (`Artifacts.NestedSecretIsStored`, `Artifacts.StoreIsCleanIff`).

## Model

| member | source | states |
|---|---|---|
| CycleFinder.FindCycle | src/dev_harness/engine/dag.py:29-60 | On every orphan-free graph the empty list is returned exactly when the graph is acyclic; otherwise the list is a real cycle of distinct nodes, self-loops included, and it is the first cycle of the graph |
| CycleFinder.CycleFinder.Visit | src/dev_harness/engine/dag.py:40-53 | From a white node the recursion either finishes it, with the path as it was and every finished node kept, or returns the cycle that the first unfinished dependencies lead to; it terminates because white nodes only disappear |
| CycleFinder.LeaveKeepsConsistent | src/dev_harness/engine/dag.py:51-52 | Popping a node whose dependencies are all black keeps the grey nodes a walk and the black ones listed dependencies first |
| FirstCycle.FirstCycleIsUnique | src/dev_harness/engine/dag.py:29-60 | The reported cycle is a function of the graph: from the least node that leads to a cycle always the first dependency that leads to one, until a node repeats |
| FirstCycle.LedIsGreedy | src/dev_harness/engine/dag.py:43-60 | A search that skipped only finished nodes has taken, at every step, the first node that leads to a cycle |
| Graph.StuckSetHasCycle | src/dev_harness/engine/dag.py:77-79 | A non-empty set of nodes that each wait for one of the set contains a cycle, which is why Kahn's loop needs no completeness check |
| Graph.RankedImpliesAcyclic | src/dev_harness/engine/dag.py:29-60 | A graph whose nodes can be listed dependencies first has no cycle |
| TopologicalOrder.ComputeOrder | src/dev_harness/engine/dag.py:109-131 | Kahn's loop emits every node exactly when the graph is acyclic, each after its dependencies, and the result is lexicographically below every other such order |
| TopologicalOrder.Release | src/dev_harness/engine/dag.py:124-129 | Emitting a node leaves each remaining indegree equal to the dependencies still unmet, repeated dependencies counted, and the ready list equal to the nodes at 0 |
| TopologicalOrder.GreedyIsLeast | src/dev_harness/engine/dag.py:121-130 | An order that always takes the least ready node is lexicographically least among all orders that respect the dependencies |
| TopologicalOrder.ExhaustedIsCompleteOrCyclic | src/dev_harness/engine/dag.py:123-131 | When no node is ready, everything was emitted if and only if the graph is acyclic |
| TopologicalOrder.LeastOrderIsUnique | src/dev_harness/engine/dag.py:109-131 | Two least orders are equal, so the order is a function of the graph |
| ChunkDag.ValidateOrphans | src/dev_harness/engine/dag.py:81-91 | No orphan is reported exactly when every dependency is a node; a reported one is the first missing of the sorted list of the least chunk id that has any |
| ChunkDag.InputOrderIsIrrelevant | src/dev_harness/engine/dag.py:71-79 | Any permutation of chunks with distinct ids gives the same graph, and so the same order |
| ChunkDag.LastChunkWins | src/dev_harness/engine/dag.py:71-77 | Of several chunks with one id the last gives the dependencies, sorted |
| ChunkDag.Build | src/dev_harness/engine/dag.py:71-107 | Construction succeeds exactly on orphan-free acyclic chunk lists; the order is the least one; the error names the first missing dependency of the least chunk that has one, or the first cycle and its first edge |
| IdOrder.LeqIsLexicographic | src/dev_harness/engine/dag.py:55-84 | Ids are compared by their first different character, a prefix coming first |
| PoolModel.ReadyChunks | src/dev_harness/engine/worker_pool.py:44-55 | A chunk is ready exactly when it is PENDING with every dependency COMPLETED, once, in the order given |
| PoolModel.ReadyChunksInOrder | src/dev_harness/engine/worker_pool.py:47-49 | The ready list keeps the order of the graph |
| PoolModel.ClaimsFollowOrder | src/dev_harness/engine/worker_pool.py:102-107 | In every run, for any bound and whatever is written: when a chunk is claimed, every chunk before it in the order that was ready when the list was made is claimed already |
| PoolModel.RunsAreSafe | src/dev_harness/engine/worker_pool.py:98-127 | In every state of every run through rounds of listing, claiming, waiting and settling, whatever the executors write: at most the bound in flight, on distinct worker ids that are exactly the ids in use; and with one worker, or if executors leave the status alone, every chunk in flight or completed by the run rests on settled COMPLETED dependencies |
| PoolModel.SlotsAreSafe | src/dev_harness/engine/worker_pool.py:98-162 | The bound, the distinct ids and the ids in use hold in every state of every run in which running executors may rewrite the status of their chunk between any two steps |
| PoolModel.OrderSafeIff | src/dev_harness/engine/nodes/developer.py:107-132 | Dependency order holds in all states of a run exactly when no chunk was claimed while one of its dependencies was still in flight |
| PoolModel.RoundsAreSafe | src/dev_harness/engine/worker_pool.py:101-127 | In every state of every run, a chunk the current round saw COMPLETED is settled, or was in flight when the round began; with one worker no round begins with a chunk in flight |
| PoolModel.NoEarlyClaim | src/dev_harness/engine/worker_pool.py:101-107 | A round that begins with nothing in flight makes no claim on a chunk in flight; nor does any round with one worker or with executors that leave the status alone |
| PoolModel.EarlyClaimTakesThree | src/dev_harness/engine/worker_pool.py:101-127 | In every run, a claim on a chunk in flight takes at least three chunks: the one claimed, the one in flight, and one settled before |
| PoolModel.TwoWorkersBreakOrder | src/dev_harness/engine/nodes/developer.py:131 | Three chunks and two workers: the first is shown as COMPLETED before its tests ran, the independent one settles, the next round claims the dependent of the first, and then the first fails |
| PoolModel.FreeSlotExists | src/dev_harness/engine/worker_pool.py:147-157 | Below the bound a fresh pool has a free slot, so the raise in slot acquisition is unreachable |
| PoolOutcome.RunnableIsFixpoint | src/dev_harness/engine/worker_pool.py:101-127 | The set of chunks a run can execute is characterised without a schedule: PENDING chunks whose dependencies were COMPLETED or can execute without raising |
| PoolOutcome.QuietRunIsExact | src/dev_harness/engine/worker_pool.py:109-127 | When nothing is in flight or ready, the chunks executed are exactly the runnable ones, also if some were claimed early |
| PoolOutcome.RaisesDecideAlike | src/dev_harness/engine/worker_pool.py:123-127 | A chunk that raises is reachable with early claims exactly when one is reachable without them, so early claims never change how a run ends |
| OneWorker.RunTakesTurns | src/dev_harness/engine/worker_pool.py:101-127 | With one worker the chunks that can run are settled one after the other in the order of the graph, in every run |
| OneWorker.SequentialFailureIsUnique | src/dev_harness/engine/worker_pool.py:101-127 | The first chunk of the order that can run and raises, everything that can run before it COMPLETED and all else as it started: that leaves one result and one set of statuses |
| PoolResult.RaiseAlone | src/dev_harness/engine/worker_pool.py:133-145 | A run of one worker that ends with a raise has failed at that chunk and left exactly those statuses |
| WorkerPool.WorkerPool.AcquireWorkerId | src/dev_harness/engine/worker_pool.py:147-157 | The lowest free slot is taken, and none only if all are in use |
| WorkerPool.WorkerPool.ReadyList | src/dev_harness/engine/worker_pool.py:44-55 | The list is put together while executors write; it holds, in DAG order, only PENDING chunks each of whose dependencies was seen COMPLETED, every chunk that is ready whatever is written, and it is exactly the ready chunks in DAG order when nothing is in flight or nobody writes |
| WorkerPool.WorkerPool.Round | src/dev_harness/engine/worker_pool.py:101-127 | One iteration goes through the steps of one round of the pool model, which claims from the ready list in DAG order, settles at least one chunk unless it ends the run, and the next begins with exactly the chunks still in flight; it stalls only with nothing ready, and on a fresh pool never lacks a slot |
| WorkerPool.WorkerPool.SettleOne | src/dev_harness/engine/worker_pool.py:133-145 | A chunk that did not raise is COMPLETED and frees its slot; a raise leaves it FAILED, fewer than the bound unsettled, every other chunk untouched, PENDING or COMPLETED |
| WorkerPool.WorkerPool.Run | src/dev_harness/engine/worker_pool.py:86-145 | For every choice of finished futures and everything the executors write meanwhile: no no-free-slot error on a fresh pool, at most one round per chunk, every state recorded as one of a safe run, a raise the step after its last state, result and final statuses decided by graph, start and raising chunks, with one worker also after a raise, and every worker id free again unless a chunk raised |
| PoolResult.FinishesExactly | src/dev_harness/engine/worker_pool.py:98-129 | A run returns all chunks COMPLETED in DAG order exactly when all start PENDING and no executor raises; it cannot stall then |
| PoolResult.CompletionOrderIsIrrelevant | src/dev_harness/engine/worker_pool.py:123-127 | Two runs of one input agree on whether a chunk raises, and otherwise on result and statuses, whatever finished first, was written meanwhile, or the worker count; with one worker each, also after a raise |
| Pipeline.Pipeline.Develop | src/dev_harness/engine/pipeline.py:157-231 | One visit resets FAILED chunks, runs the DAG with executors that write their status, leaves every COMPLETED or IN_PROGRESS chunk alone, catches no error exactly when the DAG is valid, the bound positive, every chunk was PENDING or FAILED and no executor raises, counts one retry otherwise, and appends the chunks to the channel |
| Pipeline.Pipeline.Run | src/dev_harness/engine/pipeline.py:259-276 | Every run from a zero counter visits develop at most E2E_CEILING times and ends at the critic with no FAILED chunk, or in HITL with STOPPED and a FAILED chunk; what was COMPLETED stays so; with any number of workers integrate is entered with all chunks COMPLETED exactly under a condition on the last visit, with one worker on the start |
| Pipeline.VisitKeepsSettled | src/dev_harness/engine/pipeline.py:172-187 | A visit, with any number of workers and whatever raises, changes no chunk that was COMPLETED or IN_PROGRESS |
| Pipeline.VisitSucceedsIff | src/dev_harness/engine/pipeline.py:172-187 | A visit catches no error, and then completes everything, exactly when the DAG is valid, the bound positive, every chunk was PENDING or FAILED and no executor raises |
| Pipeline.OneWorkerIsDeterministic | src/dev_harness/engine/pipeline.py:157-231 | With one worker the statuses after a visit, and whether it caught an error, are a function of the statuses before it and the chunks that raise |
| Pipeline.VisitCarries | src/dev_harness/engine/pipeline.py:172-187 | With one worker, integrate finds every chunk COMPLETED if and only if they were before, or the DAG is valid and none started IN_PROGRESS; a stall or a rejected DAG enters integrate all the same |
| Pipeline.VisitEntryIff | src/dev_harness/engine/pipeline.py:172-187 | With any number of workers, a visit that leads to integrate has completed every chunk exactly when all were before, or the DAG is valid, the bound positive and none was IN_PROGRESS |
| Pipeline.FailedChunkWasCounted | src/dev_harness/engine/pipeline.py:178-187 | A visit that leaves a FAILED chunk has counted a retry, so the loop cannot repeat for free |
| Pipeline.OneWorkerVisit | src/dev_harness/engine/pipeline.py:189-231 | With one worker a visit neither starts nor ends an IN_PROGRESS chunk, whatever its executor writes |
| Pipeline.InProgressChunkReachesIntegrate | src/dev_harness/engine/pipeline.py:268-272 | A chunk that starts IN_PROGRESS stalls the pool, nothing is FAILED, and integrate is entered with it unfinished |
| Pipeline.TwoRaisesReachIntegrate | src/dev_harness/engine/pipeline.py:172-187 | Two PENDING chunks and two workers: both executors raise in a run of the pool, one chunk is FAILED and the other stays IN_PROGRESS; the retry completes the first, stalls over the other, and enters integrate with it unfinished |
| Redact.MatchLenIsLongest | src/dev_harness/observability/redact.py:8-12 | The scanner finds a match exactly when some prefix is in the pattern's language, and takes the longest |
| Redact.SubReplacesFirstMatch | src/dev_harness/observability/redact.py:19-20 | A substitution keeps everything before the leftmost match and continues after it |
| Redact.FirstMatchIsLeftmost | src/dev_harness/observability/redact.py:19-20 | No earlier position matches |
| Redact.SubIsClean | src/dev_harness/observability/redact.py:17-21 | A pass removes every match of its pattern and creates none for a pattern that had none |
| Redact.Redact | src/dev_harness/observability/redact.py:17-21 | After the three passes no substring whatever is in the language of any pattern |
| Redact.RedactFixesExactlyClean | src/dev_harness/observability/redact.py:17-21 | Text is left unchanged exactly when it holds no secret |
| Redact.RedactIsIdempotent | src/dev_harness/observability/redact.py:17-21 | Redacting twice is redacting once |
| Redact.PassesInOrder | src/dev_harness/observability/redact.py:8-21 | The three patterns are applied in this order, each to the result of the one before |
| Render.JoinInvertsSplit | src/dev_harness/tui/render.py:94-96 | Joining the split lines with newlines gives the text back |
| Render.SplitCutsAtNewlines | src/dev_harness/tui/render.py:94 | No line holds a newline, and there is one line more than there are newlines |
| Render.LineOfRedactedIsFixed | src/dev_harness/tui/render.py:94-97 | Redacting a line of redacted text again changes nothing |
| Render.RenderDiff | src/dev_harness/tui/render.py:83-100 | The plain text of the rendering is exactly the redacted diff, one styled segment per line: cyan for @@, green for +, red for -, dim for file headers and the rest |
| Bucket.RunStaysInRange | src/dev_harness/broker/bucket.py:39-63 | The level stays in [0, capacity] over every list of calls |
| Bucket.GrantsAreBounded | src/dev_harness/broker/bucket.py:39-63 | Tokens granted plus the level left never exceed the start level, the refill earned, and what was given back, for any clock |
| Bucket.IntervalBound | src/dev_harness/broker/bucket.py:39-63 | Over any interval of a run grants are at most the level at its start, refill rate times its length, and what was given back |
| Bucket.GrantedIff | src/dev_harness/broker/bucket.py:39-63 | A request is granted exactly when the level refilled by rate times elapsed time, up to the capacity, covers it, and takes just what it asked for |
| Bucket.GrantedAfterWait | src/dev_harness/broker/bucket.py:80-84 | Whatever the bucket can hold is granted once what is missing has had time to flow in |
| Bucket.FullInAMinute | src/dev_harness/broker/daemon.py:151-154 | A bucket of RPM tokens at RPM/60 a second is full exactly from a minute after it was emptied |
| Bucket.ReadsAreInvisible | src/dev_harness/broker/bucket.py:47-52 | Dropping every read of the level from a run changes no grant and no later level |
| Bucket.TokenBucket.TryAcquire | src/dev_harness/broker/bucket.py:54-63 | The object's state and answer are those of the specification; a non-positive amount raises and changes nothing |
| Bucket.TokenBucket.Release | src/dev_harness/broker/bucket.py:96-102 | The object's state is that of the specification; a non-positive amount raises |
| BrokerBalance.BalanceIsBounded | src/dev_harness/broker/daemon.py:248-319 | When each reservation is closed at most once, level plus open reservations plus tokens used never exceed the start balance plus the refill |
| BrokerBalance.FrozenClockConserves | src/dev_harness/broker/daemon.py:248-319 | With a frozen clock that balance stays exactly the capacity over every disciplined run |
| BrokerBalance.FreshRunConserves | src/dev_harness/broker/daemon.py:123-156 | From a fresh daemon on, over every disciplined run with a frozen clock, no token is made or lost |
| BrokerBalance.RefusalIsNeutral | src/dev_harness/broker/daemon.py:255-266 | A refused RESERVE, saturated included, changes nothing but the refill of a bucket |
| BrokerBalance.ReleaseKeepsBalanceIff | src/dev_harness/broker/daemon.py:308-315 | From any state, for any message: a RELEASE makes tokens exactly when it credits a bucket that is not full for a reservation that is not an open one of that provider, and loses some exactly when it closes an open one under another provider's name or they do not fit |
| BrokerBalance.CommitKeepsBalanceIff | src/dev_harness/broker/daemon.py:285-294 | From any state, for any message, an unknown id included: a COMMIT makes tokens exactly when it credits, with room, more than the unused part of an open reservation of that provider, and loses some exactly when that part goes elsewhere or does not fit |
| BrokerBalance.CommitThenReleaseCreatesTokens | src/dev_harness/broker/reservation.py:88-101 | COMMIT then RELEASE of one id: 10 tokens were used and the bucket is full again |
| BrokerBalance.WrongProviderMovesTokens | src/dev_harness/broker/daemon.py:311-315 | A RELEASE that names another provider takes 10 tokens from one balance and makes 10 in the other |
| BrokerBalance.ReapLoses | src/dev_harness/broker/reservation.py:111-120 | Reaping never raises the balance and conserves it exactly when no open reservation of the provider has expired, against the promise that capacity returns |
| BrokerBalance.ReapingLosesTokens | src/dev_harness/broker/reservation.py:111-120 | A reservation reaped after its expiry takes its 10 tokens with it |
| BrokerLimits.PermitsAreConserved | src/dev_harness/broker/daemon.py:260-318 | Over any messages the permits held are what was granted minus what RELEASE freed, within the limit; COMMIT frees none |
| BrokerLimits.CommitOnlyStarves | src/dev_harness/broker/daemon.py:283-306 | A provider whose clients only COMMIT is granted at most its concurrency limit, ever |
| BrokerLimits.PermitsExceedOpenByCommits | src/dev_harness/broker/daemon.py:248-319 | Over every disciplined run the permits held are the open reservations plus one for every COMMIT and every open reservation reaped |
| BrokerLimits.PermitsMatchOpenIff | src/dev_harness/broker/daemon.py:283-319 | So they match exactly when nothing was committed and nothing open was reaped |
| BrokerLimits.CommittedPermitSaturates | src/dev_harness/broker/daemon.py:260-266 | After RESERVE and COMMIT no reservation is open, and the next RESERVE is refused as saturated |
| BrokerLimits.InFlightIsHeldIff | src/dev_harness/broker/local_limiter.py:62-66 | The in-flight counter equals the permits held exactly as long as no RELEASE found none held |
| BrokerLimits.BudgetHolds | src/dev_harness/broker/cost.py:46-79 | The run total is the sum of the accepted costs, and neither total passes its ceiling |
| BrokerLimits.OneInterrupt | src/dev_harness/broker/kill_switch.py:42-62 | The switch is tripped exactly when a COMMIT broke a ceiling, with exactly one interrupt then and none before |
| BrokerLimits.NoGrantAfterTrip | src/dev_harness/broker/kill_switch.py:64-70 | After a trip no message is granted a reservation |
| BrokerLimits.RejectedIff | src/dev_harness/broker/cost.py:46-79 | A charge is refused exactly when it would pass the run ceiling, or the day ceiling counted from the window it falls in |
| BrokerLimits.DayTotalIsWindowTotal | src/dev_harness/broker/cost.py:74-79 | Over any run the day total is what was accepted since the open window began; a window ends 86400 s after it began, with the first charge from then on |
| BrokerLimits.DayTotalGrows | src/dev_harness/broker/cost.py:50-79 | As long as no charge comes 86400 s after the window began, its start stays and the day total grows by exactly the accepted costs |
| BrokerLimits.ReserveIsAnswered | src/dev_harness/broker/daemon.py:248-281 | What RESERVE answers, in this order: budget after a trip, error for a bad amount, rate limited without tokens, saturated without a permit, else granted |
| BrokerLimits.ReserveHolds | src/dev_harness/broker/daemon.py:255-279 | A granted RESERVE keeps its tokens under the id until the expiry and one permit; a refused one keeps nothing |
| BrokerLimits.CommitIsAnswered | src/dev_harness/broker/daemon.py:283-306 | COMMIT answers what was left of the reservation, and nothing for an unknown id |
| BrokerLimits.ReleaseIsAnswered | src/dev_harness/broker/daemon.py:308-319 | RELEASE answers the tokens of the reservation, or raises when its limiter has no permit out |
| BrokerDaemon.BrokerDaemon.Reserve | src/dev_harness/broker/daemon.py:248-281 | The handler over the real objects has exactly the effect and reply of the specification |
| BrokerDaemon.BrokerDaemon.Commit | src/dev_harness/broker/daemon.py:283-306 | The same for COMMIT, the governor and the kill switch included |
| BrokerDaemon.BrokerDaemon.Release | src/dev_harness/broker/daemon.py:308-319 | The same for RELEASE, the over-release error included |
| BrokerDaemon.ReservationStore.ReapExpired | src/dev_harness/broker/reservation.py:111-120 | The loop removes and returns exactly the expired reservations |
| BrokerDaemon.ReservationStore.Get | src/dev_harness/broker/reservation.py:69-78 | A lookup finds exactly the unexpired reservation and drops an expired one |
| BrokerDaemon.CostGovernor.Commit | src/dev_harness/broker/cost.py:46-79 | The day total starts anew 86400 s after its window began; a cost is refused exactly when it would then pass a ceiling; a refusal keeps the totals |
| BrokerDaemon.NewDaemon | src/dev_harness/broker/daemon.py:123-156 | A new daemon has a full bucket of RPM tokens for every RPM, refilled at RPM/60 a second; it is refused for a capacity below the least |
| LocalLimiter.CountersAreTrue | src/dev_harness/broker/local_limiter.py:42-66 | Under every interleaving: queue depth is the number of callers in the waiting section, in-flight <= permits owned <= limit, and all counters are 0 when everyone is idle |
| LocalLimiter.ReleaseNeverRaises | src/dev_harness/broker/local_limiter.py:62-66 | A caller that releases what it acquired never over-releases the bounded semaphore |
| LocalLimiter.ServedIff | src/dev_harness/broker/local_limiter.py:42-55 | A waiting caller can be served exactly when fewer than the limit own a permit |
| LocalLimiter.SomebodyCanMove | src/dev_harness/broker/local_limiter.py:42-66 | While a caller waits somebody can take a step that is neither a timeout nor a new arrival |
| Throttle.RunsDeliver | src/dev_harness/tui/throttle.py:72-116 | Delivered batches followed by the buffer are exactly what was pushed, every batch has 1 to max_batch items, and the counters tell the truth |
| Throttle.DrainFlushesIff | src/dev_harness/tui/throttle.py:106-116 | A drain delivers what is waiting exactly when its `now`, or without one the clock, is at least an interval past the last flush |
| Throttle.PushFlushesWhenDue | src/dev_harness/tui/throttle.py:72-87 | After a push nothing waits once the interval is over; before that, and with room, the item is only kept |
| Throttle.OnTimeIff | src/dev_harness/tui/throttle.py:106-116 | A timed flush comes at least an interval after the flush before it, exactly unless it is a drain of waiting items whose given `now` has reached the end of the interval while the clock has not |
| Throttle.AllOnTimeIff | src/dev_harness/tui/throttle.py:72-116 | Over a run every timed flush keeps the interval exactly when no drain of it is early in that sense |
| Throttle.SinkCallsAreBounded | src/dev_harness/tui/throttle.py:72-116 | With no condition on the times given to drain, sink calls are at most elapsed time / interval plus written / max_batch plus explicit flushes plus early drains |
| Throttle.SinkCallsOnTime | src/dev_harness/tui/throttle.py:72-116 | Without a `now` ahead of the clock no drain is early, and the documented bound holds |
| Throttle.TenThousandEvents | src/dev_harness/tui/throttle.py:5-7 | 10 000 events in 2 s at the default settings cost at most 42 sink calls, and one for each explicit flush or early drain |
| Throttle.HastyDrainsFlushEveryTime | src/dev_harness/tui/throttle.py:106-116 | With a `now` ahead of the clock the bound fails: any number of flushes takes no time |
| Throttle.DrainTwice | src/dev_harness/tui/throttle.py:109-110 | Draining again at the same time writes nothing |
| Throttle.CoalescingThrottle.Push | src/dev_harness/tui/throttle.py:72-87 | The object's state is that of the specification; it reports a flush exactly when one happened |
| Throttle.CoalescingThrottle.Drain | src/dev_harness/tui/throttle.py:106-116 | The object's state is that of the specification; it returns what it wrote |
| Queue.RunsAreFaithful | src/dev_harness/ipc/queue.py:42-73 | Over any run with capacity at least 1: never above capacity, what is delivered and queued is an in-order part of what was accepted, and accepted = delivered + queued + dropped |
| Queue.ControlPut | src/dev_harness/ipc/queue.py:54-67 | A control event evicts the oldest token and is refused exactly by a full queue of control events |
| Queue.TokenPut | src/dev_harness/ipc/queue.py:48-53 | Every token is accepted; a full queue drops its oldest item for it and counts that |
| Queue.TokensKeepNewest | src/dev_harness/ipc/queue.py:48-53 | Of a run of tokens the queue holds exactly the newest, oldest first, and counted the others as dropped |
| Queue.AcceptedIsUnrefused | src/dev_harness/ipc/queue.py:42-67 | Over any run what was accepted is what was offered less the control events put on a queue full of control events |
| Queue.PutKeepsControlsIff | src/dev_harness/ipc/queue.py:48-67 | A put keeps every control event exactly when it is neither a token put on a full queue headed by a control event nor a control put on a full queue of them |
| Queue.ControlsSurviveIff | src/dev_harness/ipc/queue.py:42-73 | Over a run no control event is lost exactly when no put was of that kind |
| Queue.TokenEvictsControl | src/dev_harness/ipc/queue.py:48-53 | A snapshot at the head of a full queue is dropped for a token, against the promise that control events never drop |
| Queue.GaplessIff | src/dev_harness/ipc/queue.py:42-73 | Everything offered is delivered or queued, in order, exactly when no put met a full queue |
| BackpressureQueue.BackpressureQueue.Put | src/dev_harness/ipc/queue.py:42-67 | The object's state and answer are those of the specification, the IndexError at capacity 0 included |
| Fanout.ClientStandsAlone | src/dev_harness/engine/fanout.py:31-57 | Inside the fan-out a client's queue is what its own calls alone would make it |
| Fanout.OthersMakeNoDifference | src/dev_harness/engine/fanout.py:37-47 | Attaching, detaching, draining or addressing other clients changes nothing for this one |
| Fanout.ClientSeesPublished | src/dev_harness/engine/fanout.py:31-57 | A client sees an in-order part of what was published to it since it attached, the missing events are counted or refused, and it sees all exactly when its queue never overflowed |
| Fanout.ClientReceivesPublished | src/dev_harness/engine/fanout.py:31-57 | What its drains returned, then what is queued, is an in-order part of what was published to it, and all of it exactly when its queue never overflowed |
| Fanout.AttachedIff | src/dev_harness/engine/fanout.py:22-29 | A client has a queue exactly from its attach to its detach |
| Fanout.SnapshotComesFirst | src/dev_harness/engine/state_broadcast.py:54-60 | After an attach the client gets the snapshot and then every later event, exactly while its queue has not overflowed |
| Fanout.Fanout.Publish | src/dev_harness/engine/fanout.py:31-34 | The loop over the clients puts the envelope on every queue once |
| Fanout.Fanout.Drain | src/dev_harness/engine/fanout.py:47-57 | Draining returns everything queued in order, empties that queue and touches no other |
| Framing.UnpackPack | src/dev_harness/ipc/framing.py:16-18 | The 4-byte big-endian prefix round-trips below 2^32 |
| Framing.PackUnpack | src/dev_harness/ipc/framing.py:16-18 | Every 4 bytes are the prefix of the number they unpack to |
| Framing.PrefixIsBigEndian | src/dev_harness/ipc/framing.py:16-18 | The most significant byte of the prefix comes first |
| Framing.EnvelopeEncodesIff | src/dev_harness/ipc/framing.py:40-59 | An envelope is encoded exactly when its frame, prefix included, is within 16 MiB for a snapshot and 1 MiB otherwise |
| Framing.MessageEncodesIff | src/dev_harness/broker/protocol.py:31-39 | A broker message is encoded exactly when its frame is within 1 MiB |
| Framing.DecodesIff | src/dev_harness/ipc/framing.py:62-85 | Bytes decode to a message exactly when they begin with a frame of it that is not above the ceiling |
| Framing.DecodeFailsAs | src/dev_harness/ipc/framing.py:62-85 | Which error other bytes give: no prefix, announced too large, body cut, or body unreadable |
| Framing.ReadAgreesWithDecode | src/dev_harness/ipc/framing.py:62-138 | Reading a stream and decoding its bytes agree on every byte string, in result and in kind of error |
| Framing.StreamRoundTrip | src/dev_harness/ipc/framing.py:46-138 | Any list of encodable messages is read back exactly, then the end of the stream |
| Framing.CutStream | src/dev_harness/ipc/framing.py:88-138 | A stream cut after any byte yields exactly the complete leading frames, then end-of-stream if and only if the cut is between frames, an incomplete frame otherwise |
| Framing.ReadExactly | src/dev_harness/ipc/framing.py:88-105 | However short the reads, the loop returns the first n bytes, or all there are |
| Framing.ReadFrame | src/dev_harness/ipc/framing.py:109-138 | Outcome and remaining bytes do not depend on how the bytes arrived |
| DispatchPlan.EmptyWaveIffCyclic | scripts/dispatch_plan.py:96-113 | The plan ends in an empty wave exactly when the open prerequisite graph has a cycle |
| DispatchPlan.LayersAreDisjoint | scripts/dispatch_plan.py:135-136 | A task is in at most one wave and was not done before |
| DispatchPlan.WavesAreSchedule | scripts/dispatch_plan.py:98-107 | Every task comes strictly after the in-phase prerequisites it still needs |
| DispatchPlan.WavesAreEarliest | scripts/dispatch_plan.py:96-136 | Whatever any schedule can place is planned, and in no later wave than that schedule's |
| DispatchPlan.SplitIsSound | scripts/dispatch_plan.py:114-125 | In a wave the parallel tasks have pairwise disjoint files, each serialized one overlaps a parallel one that stands before it, and together they are the ready set |
| DispatchPlan.ReasonTells | scripts/dispatch_plan.py:100-134 | The reason of a wave says whether it is empty, or any two of its tasks share a file |
| DispatchPlan.BuildPlan | scripts/dispatch_plan.py:88-137 | The loop terminates with exactly these waves, splits and reasons, and grows the caller's done set by what it planned |
| Differential.Reachable | src/dev_harness/engine/testing/differential.py:91-101 | The stack loop terminates, in any order of the imports, with exactly the modules an import path leads to |
| Differential.BuildDependencyGraph | src/dev_harness/engine/testing/differential.py:104-120 | Each test gets exactly the closure of its direct imports |
| Differential.SelectionIsExact | src/dev_harness/engine/testing/differential.py:169-173 | A test is selected, once and in order, exactly when an import path leads from it to a changed module |
| Differential.FallbackRunsEverything | src/dev_harness/engine/testing/differential.py:137-173 | Without a graph every test runs, whatever changed, and the result gives a reason |
| Differential.SelectionIsAdditive | src/dev_harness/engine/testing/differential.py:169-173 | Selecting for two change sets together is selecting for each, so more changes never select less |
| Differential.SelectionIsTransitive | src/dev_harness/engine/testing/differential.py:107-111 | A test selected for a module is selected for whatever that module imports |
| Differential.MoreImportsSelectMore | src/dev_harness/engine/testing/differential.py:91-101 | Adding imports never deselects a test |
| Context.ClipFits | src/dev_harness/engine/context.py:59-66 | A clipped text is a prefix and meets its allowance exactly from 2 tokens on |
| Context.ClipKeepsMost | src/dev_harness/engine/context.py:59-66 | Where a text was cut, one character more would pass the allowance |
| Context.LimitIsTight | src/dev_harness/engine/context.py:65-66 | One character more than the clip limit would pass the allowance |
| Context.EstimateIsMonotone | src/dev_harness/providers/tokenizer.py:17-20 | A longer text never counts for less |
| Context.EstimateIsSafe | src/dev_harness/providers/tokenizer.py:1-20 | The estimate is never below a quarter of the length plus the margin |
| Context.EstimateIsExact | src/dev_harness/providers/tokenizer.py:9-20 | The estimate is the least integer at or above 1.15 tokens for every four characters begun, one at least |
| Context.ShapedFitsIff | src/dev_harness/engine/context.py:87-94 | The result fits the budget exactly when the budget has 2 tokens per message, whatever the contents |
| Context.EmptyMessageExceedsBudget | src/dev_harness/engine/context.py:87-94 | One empty message exceeds a budget of 1 |
| Context.BuildPromptIsBounded | src/dev_harness/engine/context.py:69-94 | The whole of build_prompt: its one error, its length, its prefixes, and that exact budget condition |
| Context.BuildPromptKeepsMost | src/dev_harness/engine/context.py:69-94 | Messages stay first and in order, then the capped trace as a user message; each is whole, or as long as max(1, budget // n) tokens can hold |
| Context.ShapedKeepsMessages | src/dev_harness/engine/context.py:87-94 | Roles, names and order stay, contents are prefixes, and a prompt within budget is unchanged |
| Context.CapIsBoundedIff | src/dev_harness/engine/context.py:37-41 | The cap bounds the trace exactly if tail is not 0 or nothing had to be cut |
| Context.CapTraceKeeps | src/dev_harness/engine/context.py:27-41 | A trace within the window is unchanged; of a longer one both ends stay, with the number of lines left out between them |
| Context.DigitsAreDecimal | src/dev_harness/engine/context.py:40 | That number is written in decimal |
| Context.CapWithoutTailGrows | src/dev_harness/engine/context.py:41 | With head and tail 0, three lines become four |
| Artifacts.RotationIsIncremental | src/dev_harness/observability/artifacts.py:43-51 | Rotating after every append is rotating the whole history once |
| Artifacts.StoreIsLongestSuffix | src/dev_harness/observability/artifacts.py:35-51 | After any appends the store is the longest suffix of the redacted history within the cap, or just the newest entry |
| Artifacts.StoreIsCleanIff | src/dev_harness/observability/artifacts.py:35-51 | No string in the store holds a secret exactly when the keys, and the values that are no strings, of the entries kept hold none |
| Artifacts.StoredEntryIsCleanIff | src/dev_harness/observability/artifacts.py:38-42 | The same for one entry; the message is always clean |
| Artifacts.RedactEntryFacts | src/dev_harness/observability/artifacts.py:38-42 | The message becomes redacted text, strings directly in the entry are redacted, lists and objects are stored as they are |
| Artifacts.StoredMessage | src/dev_harness/observability/artifacts.py:38-39 | The stored message is the redacted text of the message, whatever its type, and empty without one |
| Artifacts.StoredValue | src/dev_harness/observability/artifacts.py:40-42 | Any other direct string is stored redacted, any other value as it is |
| Artifacts.RedactTwice | src/dev_harness/observability/artifacts.py:39-42 | Redacting a stored entry again changes nothing |
| Artifacts.NestedSecretIsStored | src/dev_harness/observability/artifacts.py:40-42 | An API key inside a list is stored in the clear |
| Artifacts.RunArtifactStore.Append | src/dev_harness/observability/artifacts.py:35-51 | The object's loops compute the rotation of the redacted entries |
| Scrollback.LiveAndSpilled | src/dev_harness/tui/scrollback.py:128-140 | The newest max_lines lines are live and exactly the older ones were spilled, oldest first, and counted |
| Scrollback.LosslessHistory | src/dev_harness/tui/scrollback.py:150-152 | Over a sink that keeps everything, spilled then live lines are the full history |
| Scrollback.StoreHistoryIff | src/dev_harness/tui/scrollback.py:146-152 | Over the artifact store the history comes back whole exactly when the spilled lines fit the cap and hold no secret |
| Scrollback.ScrollbackBuffer.AppendLine | src/dev_harness/tui/scrollback.py:128-140 | The loop spills as specified |

## Left out

- Sockets, accept loops, locks, signals, processes, git calls, provider adapters, configuration and user interface panels: effects with no logic of their own to prove. `recv` returns any non-empty part of what remains.
- JSON text and validation: message bodies are an abstract writer and parser that round-trip; the size of an artifact entry is any function of it, and its file is the list of its entries.
- Floating-point rounding: time, tokens, USD and the tokenizer margin are exact reals or fractions.
- Bucket.TokenBucket.TryAcquire: the blocking `acquire`, which waits and repeats the same refill and test, is not modelled.
- BrokerDaemon.BrokerDaemon.Reserve: handlers are atomic and use one clock reading each, so interleavings inside one handler are not covered.
- BrokerDaemon.BrokerDaemon.Commit: the latency and throughput metrics, the delivery of the interrupt and the resolution of a model id to a price are not modelled.
- LocalLimiter.CountersAreTrue: a caller is one acquire and its release; a thread with several acquires is several callers, and a release by a thread that acquired nothing is covered by BrokerLimits.InFlightIsHeldIff only.
- WorkerPool.WorkerPool.Run: an executor writes the status of its own chunk only, and never PENDING; whether it raises is fixed before the run. Chunk statuses are kept by id, so two chunk objects with one id are not distinguished.
- Pipeline.Pipeline.Run: the personas, integrate and critic are taken to complete. With more than one worker the condition on entering integrate is stated for the last visit, not for the start: an unsettled chunk can be left in any state by a visit in which another one failed.
- Differential.SelectionIsExact: changed paths are given as module names, and imports as parsed.
- DispatchPlan.BuildPlan: the markdown tables are parsed elsewhere; the input is the parsed phase.
- Redact.MatchLenIsLongest: only the three pattern shapes, not regular expressions in general; `safe_text(x).plain` is taken to be `redact(x)`.
- Context.CapIsBoundedIff: `splitlines` is an arbitrary function of the text.
- Percentiles, the workspace watcher, integrity checks and retention: each would add only members whose property is read off one body.
- Workspace lock exclusion, worker-slot rebinding and checkpoint recovery rest on file system races.
