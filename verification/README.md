# Verified models of the workflow samples

Dafny models of seven protocols that the Go samples write out in full, with proofs of what they promise
over every input, every schedule and every continue-as-new chain. `dafny verify dfyconfig.toml` checks the
whole project.

| protocol | source | modules |
|---|---|---|
| DSL interpreter | `dsl/workflow.go` | Dsl, DslConfluence, DslOutcome, DslAnswers, DslStatement, DslProgress, DslRace, DslInterpreter |
| LRU cache | `recovery/cache/lru.go` | LruSpec, LruCache, LruReplay, LruKeep, LruInclusion, LruKeyInclusion, LruHistory, LruLifetime, LruOutcome |
| Sliding-window batch | `batch-sliding-window/` | SlidingWindow, WindowAccounting, WindowTermination, ProcessBatch |
| Distributed mutex | `mutex/mutex_workflow.go` | Mutex, MutexService, MutexProgress, MutexServer |
| Cluster manager | `safe_message_handler/` | Cluster, ClusterSafety, ClusterHandlers |
| Particle swarm | `pso/` | Swarm, SwarmSearch, SwarmMotion, SwarmIteration, SwarmLoop |
| Drain and resume loops | `reqrespupdate/`, `retryactivity/`, `recovery/` | Uppercaser, Resume, RetryActivity, Recovery |

`Wrappers` holds Option and Result, `Ranges` the intervals that several protocols visit.

## How to read it

Code that changes state is a class or a method with loops, proved equal to a function on values
(`Snapshot()`, `Value()` or `Contents` give the value of an object). Workflow code is cut at its blocking
calls: each stretch between two of them is one step of a state machine over the same functions. A move names
who goes next and what the environment answers, so a statement about all sequences of moves is a statement
about all schedules.

What is assumed about the environment, and no more:

- coroutines of one workflow switch only at blocking calls;
- signals, updates, activity results and timers arrive in any order; completion signals may be repeated;
- an activity may fail; under a cancelled context it may also end with a cancellation;
- continue-as-new is atomic and happens only when no received signal is left unread;
- at most one run of a workflow ID is open at a time, and the generated child IDs do not collide.

## What the proofs found

Where code and comment disagree the model follows the code. Each of these is a lemma, with the exact
condition where there is one.

- A parallel block is confluent only without conflicts; for two activities `ConfluentExactly` says which pairs.
- A cache of size n holds at most n - 1 entries, because eviction starts on equality (`SizeStaysBelowMax`);
  sizes of zero and below never evict (`UnboundedNeverEvicts`).
- Entries older than the TTL are documented not to be returned. `PutIfNotExist` returns and revives them
  (`PutIfNotExistReturnsExpired`); `PutIfNotExistHonoursTtl` says exactly when it does not. It also reports
  its argument as stored when the stored value is nil (`PutIfNotExistReturnsStored`).
- Without pinning an entry that was ever released never expires (`ReleaseDefeatsTtl`).
- `ErrCacheFull` says that all capacity is pinned; it looks at the oldest entry only (`CacheFullIsExact`), so
  releasing any other entry does not help (`CacheFullWithFreeEntry`).
- The inclusion property of LRU holds for Get, Put and Delete. `PutIfNotExist` keeps it exactly under the
  condition of `PutIfNotExistStep`; the keys stay included in any case (`KeysAreIncluded`).
- The mutex admits two clients when an unlock timer fires early (`EarlyTimerIsReached`), and also without that
  when a client whose request was retried locks again (`LeftoverAcquireIsReached`); `ProtectionIsLostExactly`
  lists the steps that lose exclusion.
- A page size or window below one starts nothing and the chain runs for ever (`EmptyPageOrWindowNeverEnds`).
- Handlers are documented to work only between start and shutdown; those past the check for shutdown go on
  after it, and only those (`ShutdownStopsTheOthers`, `AssignAfterShutdown`). Deleting a job called `BAD!`
  makes all bad nodes good (`BadIsLostExactly`). After continue-as-new a job that is asked for again gets no
  nodes (`ContinueAsNewLosesNodes`), and the run waits for a second start signal (`ContinueAsNewAwaitsStart`).
- `PrintEvery` is documented as zero for no output; zero makes the loop divide by zero. The limits under which
  no run can crash are those of `SafeLimitsNeverPanic`.
- Parts of a number add up to it exactly when it is not negative or divides evenly (`PartsAddUpExactly`).
- Without rejection, the update workflow can be kept from ever continuing as new (`WithoutRejectionNeverDrains`).

## Model

| member | source | states |
|---|---|---|
| `DslConfluence.Confluence` | dsl/workflow.go:73-166 | if no branch of a parallel block writes a variable that another branch reads or writes and no activity fails, every schedule that returns, returns nil with the bindings of running the branches one after another |
| `DslConfluence.LoadMeansSequential` | dsl/workflow.go:73-158 | the coroutine tree before its first step denotes the sequential run: parallel part, sequence part, activity part, in this order |
| `DslConfluence.StepKeepsMeaning` | dsl/workflow.go:95-149 | no step of any coroutine, argument read and result write included, changes the bindings that the rest of the tree would end with sequentially |
| `DslConfluence.NodeKeepsMeaning` | dsl/workflow.go:108-149 | a step in one element or branch keeps the denotation of the block around it |
| `DslConfluence.QuietCommutes` | dsl/workflow.go:118-149 | a write of one branch commutes with everything its race-free siblings still do |
| `DslConfluence.UntouchedCommutes` | dsl/workflow.go:95-106 | a statement commutes with a write to a variable it neither reads nor writes |
| `DslConfluence.UnwrittenKept` | dsl/workflow.go:95-106 | a statement leaves the variables it does not write, absent ones reading as the empty string |
| `DslConfluence.RunKeepsMeaning` | dsl/workflow.go:73-158 | whole schedules keep the denotation and never produce an error when no activity fails |
| `DslStatement.UntangledIsConfluent` | dsl/workflow.go:73-158 | confluence in terms of the statements: no branch of a parallel block sets a variable that another branch sets or uses |
| `DslRace.RaceLosesConfluence` | dsl/workflow.go:118-149 | for every two invocations of which both write one variable with different calls, or one reads what the other writes, some activities, variables and schedule end with other bindings than the sequential run |
| `DslRace.ConfluentExactly` | dsl/workflow.go:118-149 | a parallel block of two invocations gives the sequential bindings in every schedule, for all activities and variables, if and only if the two do not conflict |
| `DslRace.SameCallTwice` | dsl/workflow.go:118-149 | two branches that make the same call into the same variable, which it does not read, always give the sequential bindings |
| `DslOutcome.Outcome` | dsl/workflow.go:73-158 | in every schedule no activity starts twice; the workflow returns nil exactly when every activity ran once and succeeded; a returned error is that of an activity that failed by itself, never the cancellation sent by a sibling |
| `DslOutcome.ErrorIsGenuine` | dsl/workflow.go:118-149 | at any nesting depth the error of a statement is the error of one of its own activities, and a cancellation only if the statement was cancelled from outside |
| `DslOutcome.SequencesRunInOrder` | dsl/workflow.go:108-116 | whenever an activity starts, every activity of the preceding elements of the sequences around it has succeeded |
| `DslStatement.StatementsRunInOrder` | dsl/workflow.go:73-116 | the same in terms of the statements: earlier elements of a sequence, and earlier parts of a statement, have succeeded before an activity starts |
| `DslAnswers.EndsAsAnswered` | dsl/workflow.go:95-106 | in every schedule an activity ends in success, with its failure or as cancelled exactly when a move of the schedule answered so |
| `DslAnswers.OutcomeIsAnswered` | dsl/workflow.go:73-158 | a workflow that returned nil had a success and nothing else as the answer of every activity; a returned error is the failure that the named activity answered with |
| `DslAnswers.FailureIsNotLost` | dsl/workflow.go:98-101 | after one failure anywhere the workflow cannot return nil |
| `DslAnswers.CancellationIsExact` | dsl/workflow.go:126-137 | an activity can be cancelled if and only if a parallel block around it has aborted, at any depth, or the whole was cancelled |
| `DslAnswers.AnswerWrites` | dsl/workflow.go:102-104 | a success gives its result variable its value, and nothing else changes a binding |
| `DslOutcome.StepKeepsSound` | dsl/workflow.go:73-149 | every step keeps the invariant: passed elements and picked branches returned nil, and an aborted block holds the failure it returned |
| `DslOutcome.StepKeepsLogged` | dsl/workflow.go:95-106 | the event history of every activity is exactly what its state says |
| `DslOutcome.LoadIsFresh` | dsl/workflow.go:73-93 | loading numbers the activities consecutively in the order parallel, sequence, activity |
| `DslProgress.SchedulesAreFinite` | dsl/workflow.go:73-149 | no schedule is longer than the work of the tree, and every schedule that returns nil has exactly that length |
| `DslProgress.NeverStuck` | dsl/workflow.go:73-149 | a workflow that has not returned always has an enabled step, provided its activities can answer |
| `DslProgress.CanReturn` | dsl/workflow.go:73-149 | from every point of every schedule the workflow can be brought to its end |
| `DslProgress.StepDoesWork` | dsl/workflow.go:73-149 | every step takes exactly one unit of the remaining work |
| `DslInterpreter.MakeInput` | dsl/workflow.go:160-166 | arguments are looked up in order, an absent variable as the empty string |
| `DslInterpreter.Memory.constructor` | dsl/workflow.go:50-55 | the bindings start as a copy of the variables |
| `DslInterpreter.Build` | dsl/workflow.go:73-158 | the tree of coroutine objects of a statement, nothing shared between branches |
| `DslInterpreter.SimpleDslWorkflow.constructor` | dsl/workflow.go:50-63 | a workflow starts with the tree of its root statement and a copy of its variables |
| `DslInterpreter.Node.Resume` | dsl/workflow.go:73-149 | resuming one coroutine object deep in the tree changes that object and the shared bindings in place, and nothing else, as the step function says |
| `DslInterpreter.Node.ResumeHere` | dsl/workflow.go:108-149 | one stretch of a coroutine: argument read, next element, delivered branch, return |
| `DslInterpreter.Node.FinishActivity` | dsl/workflow.go:98-105 | a result goes into the shared bindings, an error or a cancellation to the caller |
| `DslInterpreter.SimpleDslWorkflow.Follow` | dsl/workflow.go:63-71 | following a schedule in place reaches the state the run function gives |
| `DslInterpreter.Execute` | dsl/workflow.go:50-71 | executed on objects along any schedule, a race-free workflow that returns, returns nil and leaves the sequential bindings |
| `LruCache.AccessList.PushFront` | recovery/cache/lru.go:179-179 | the ring of pointers gains one element in front |
| `LruCache.AccessList.Remove` | recovery/cache/lru.go:77-77 | the ring loses exactly one element and stays well linked |
| `LruCache.AccessList.MoveToFront` | recovery/cache/lru.go:82-82 | one element moves to the front, the others keep their order |
| `LruCache.AccessList.Back` | recovery/cache/lru.go:181-181 | the last element, or nil |
| `LruCache.Lru.constructor` | recovery/cache/lru.go:26-40 | a new cache is empty, its map and list agree |
| `LruCache.Lru.Get` | recovery/cache/lru.go:57-84 | the heap cache behaves as the sequence model: pin, expiry, move to front |
| `LruCache.Lru.Put` | recovery/cache/lru.go:87-93 | panics in pin mode, otherwise behaves as the sequence model with overwriting |
| `LruCache.Lru.PutIfNotExist` | recovery/cache/lru.go:96-108 | behaves as the sequence model; a nil existing value is taken for an absent one |
| `LruCache.Lru.Delete` | recovery/cache/lru.go:111-123 | removes the entry of the key, if any, and hands its value to the callback |
| `LruCache.Lru.Release` | recovery/cache/lru.go:126-133 | one reference less, nothing else; panics for an absent key |
| `LruCache.Lru.Size` | recovery/cache/lru.go:136-141 | the size of the map is the number of entries |
| `LruCache.Lru.PutInternal` | recovery/cache/lru.go:145-199 | update in place, insertion, eviction of the last entry, or the reverted insertion when that entry is held |
| `LruCache.Lru.PutNew` | recovery/cache/lru.go:166-198 | insertion of a new key with eviction on equality |
| `LruCache.Lru.Evict` | recovery/cache/lru.go:181-195 | drops the oldest entry, or the new one when the oldest is held |
| `LruReplay.Replay` | recovery/cache/lru.go:26-199 | a cache object taken through any history holds exactly the contents that the history functions give, below maxSize |
| `LruInclusion.Inclusion` | recovery/cache/lru.go:57-123 | for 1 <= m <= n the cache of size m is, after any history of gets, puts and deletes, the cache of size n restricted to its keys: same values, same order |
| `LruInclusion.PutStep` | recovery/cache/lru.go:145-199 | one put keeps the inclusion, evictions on either side included |
| `LruInclusion.GetStep` | recovery/cache/lru.go:57-84 | one get keeps it, also when it hits the larger cache only |
| `LruInclusion.DeleteStep` | recovery/cache/lru.go:111-123 | one delete keeps it |
| `LruKeyInclusion.PutIfNotExistStep` | recovery/cache/lru.go:95-108 | after PutIfNotExist on both caches the smaller one is still included if and only if it holds the key, or the larger one does not, or holds the same value, or maxSize is one |
| `LruKeyInclusion.KeysAreIncluded` | recovery/cache/lru.go:57-199 | after any history of all five operations the keys of the smaller cache are keys of the larger one, in the same order |
| `LruHistory.OrderIsRecency` | recovery/cache/lru.go:57-199 | after every history the list is strictly ordered by last use |
| `LruHistory.ContentsAreDistinct` | recovery/cache/lru.go:57-199 | no key occurs twice |
| `LruHistory.SizeStaysBelowMax` | recovery/cache/lru.go:180-196 | for maxSize >= 1 at most maxSize - 1 entries |
| `LruHistory.EntriesAreAccounted` | recovery/cache/lru.go:57-199 | every entry holds the value last stored, its reference count is puts plus gets less releases since insertion, and it expires ttl after its last put |
| `LruLifetime.GetIsExact` | recovery/cache/lru.go:57-84 | a get of a present key fails exactly when nobody holds the entry and its last put is more than ttl ago; otherwise it returns the value last stored |
| `LruOutcome.GetNeverInvents` | recovery/cache/lru.go:57-84 | over every history a get returns the value last stored if it hits and nil otherwise; a miss is silent; a value that is not nil was put under this key |
| `LruOutcome.OthersAnswer` | recovery/cache/lru.go:87-133 | Put returns the value that its key held, or panics in pin mode and changes nothing; Release panics exactly for an absent key |
| `LruOutcome.KeysComeAndGo` | recovery/cache/lru.go:57-199 | every operation brings in the key it puts, drives out exactly the deleted, expired or evicted key, and hands exactly the value last stored under it to the callback |
| `LruLifetime.TtlIsHonoured` | recovery/cache/lru.go:72-80 | with a ttl, no pins and no releases, a get that hits its key finds an entry last put at most ttl ago |
| `LruLifetime.ReleaseDefeatsTtl` | recovery/cache/lru.go:126-133 | without pins an entry never expires if and only if there is no ttl or somebody released it since it entered the cache |
| `LruLifetime.PutIfNotExistIgnoresAge` | recovery/cache/lru.go:95-108 | a put of a present key returns the stored value whatever its age, and its own value where nil is stored |
| `LruLifetime.PutIfNotExistHonoursTtl` | recovery/cache/cache.go:31-33 | PutIfNotExist returns no value but its own that was last put more than ttl ago, whatever it is given, if and only if the key is absent, holds nil, has no ttl, or was last put at most ttl ago |
| `LruLifetime.PutIfNotExistReturnsExpired` | recovery/cache/cache.go:31-33 | every expired entry that nobody holds is gone for Get but returned by PutIfNotExist, and then returned by Get for another ttl |
| `LruLifetime.PutIfNotExistReturnsStored` | recovery/cache/lru.go:95-108 | the returned value is the one stored, except exactly when the key held nil and the argument is not nil |
| `LruLifetime.HeldEntriesStay` | recovery/cache/lru.go:66-80 | an entry with a positive count survives every operation but Delete of its key |
| `LruLifetime.CacheFullIsExact` | recovery/cache/lru.go:180-189 | a put fails exactly when the key is new, the entry would fill the cache and the oldest entry is held; order, values and counts then stay as they were |
| `LruLifetime.CacheFullWithFreeEntry` | recovery/cache/lru.go:11-12 | after a put failed, a release lets it succeed if and only if it gives up the last hold on the least recently used entry; freeing any other entry does not |
| `LruLifetime.UnboundedNeverEvicts` | recovery/cache/lru.go:180-180 | a cache of size zero or less keeps every key at every put |
| `SlidingWindow.GetRecords` | batch-sliding-window/record_loader_activity.go:34-47 | the page of records from the offset, cut at the maximum; panics beyond the data |
| `SlidingWindow.Window.constructor` | batch-sliding-window/sliding_window_workflow.go:61-69 | a run starts with the carried records and progress and no children of its own |
| `SlidingWindow.Window.RecordCompletion` | batch-sliding-window/sliding_window_workflow.go:236-242 | a first completion moves a record from in flight to counted, a repeated one does nothing |
| `SlidingWindow.Window.StartChild` | batch-sliding-window/sliding_window_workflow.go:134-144 | a started record is in flight and counted as started by this run |
| `SlidingWindow.Window.ProcessRecords` | batch-sliding-window/sliding_window_workflow.go:124-146 | the loop over a page starts a prefix of it in order, all of it unless it blocks at a full window; the window is not exceeded and progress plus in flight less started stays the same |
| `SlidingWindow.Window.DrainCompletionSignalChannel` | batch-sliding-window/sliding_window_workflow.go:188-204 | every buffered signal is counted before the run ends |
| `SlidingWindow.Window.ContinueAsNewOrComplete` | batch-sliding-window/sliding_window_workflow.go:149-186 | waits for the start of every child of the run and fails with the first error; the next input is the offset plus the children started, with the drained records and progress; the last run returns progress only when nothing is in flight |
| `SlidingWindow.CompleteAllConserves` | batch-sliding-window/sliding_window_workflow.go:188-204 | draining any signals, repeated ones included, conserves progress plus in flight |
| `WindowAccounting.Accounting` | batch-sliding-window/sliding_window_workflow.go:101-242 | at every point of every chain: started records are the interval from the first offset, in flight is started less received, progress plus in flight is the number started, the window is not exceeded, no signal is lost, the children of earlier runs have really started, and the result is MaximumOffset minus the first offset, all of it reported |
| `WindowAccounting.StepKeepsInvariant` | batch-sliding-window/sliding_window_workflow.go:101-242 | every start, report, receipt and continue-as-new keeps it |
| `WindowAccounting.StepKeepsConfirmed` | batch-sliding-window/sliding_window_workflow.go:149-161 | every step, continue-as-new included, leaves no child of an earlier run that has not started |
| `WindowAccounting.TallyReceive` | batch-sliding-window/sliding_window_workflow.go:188-242 | receiving any part of the channel keeps the tally of started, counted and buffered records |
| `WindowTermination.ChainLength` | batch-sliding-window/sliding_window_workflow.go:109-186 | a chain over n records continues as new exactly ceil(n / PageSize) times before its last run |
| `WindowTermination.ContinueAdvancesOnePage` | batch-sliding-window/sliding_window_workflow.go:149-176 | each continue-as-new raises the offset by a page, or up to the maximum, and strictly |
| `WindowTermination.NeverBlocked` | batch-sliding-window/sliding_window_workflow.go:124-186 | once all children asked for have started and reported, a run can always go on by itself |
| `WindowTermination.InternalStepsDecrease` | batch-sliding-window/sliding_window_workflow.go:101-186 | each step that a chain takes by itself decreases a well-founded measure |
| `WindowTermination.EveryChainCanFinish` | batch-sliding-window/sliding_window_workflow.go:101-186 | with PageSize and window of at least one, whatever happened so far short of a failure, the chain can still finish, and returns MaximumOffset minus the first offset |
| `WindowTermination.OneStepCloser` | batch-sliding-window/sliding_window_workflow.go:101-186 | an open run can always take a step of its own, have a child start, or receive a report of one in flight, and each decreases a well-founded measure |
| `WindowTermination.EmptyPageOrWindowNeverEnds` | batch-sliding-window/sliding_window_workflow.go:124-145 | with a page size or window below one nothing is ever started and the chain never finishes |
| `ProcessBatch.DivideIntoPartitions` | batch-sliding-window/batch_workflow.go:79-93 | the slice holds the quotient everywhere and one more in the first remainder places, for negative numbers too; panics for n below one |
| `ProcessBatch.PartsAddUp` | batch-sliding-window/batch_workflow.go:79-93 | the parts add up to the number, less the remainder when it is negative |
| `ProcessBatch.PartsAddUpExactly` | batch-sliding-window/batch_workflow.go:79-93 | the parts add up to the number if and only if it is not negative or divides evenly |
| `ProcessBatch.PartsAreEven` | batch-sliding-window/batch_workflow.go:79-93 | two parts differ by at most one, larger ones first |
| `ProcessBatch.StartPartitions` | batch-sliding-window/batch_workflow.go:32-65 | the error when the window is smaller than the partitions, the panic when there is no partition, otherwise the inputs of the children in order |
| `ProcessBatch.AddResults` | batch-sliding-window/batch_workflow.go:66-76 | the sum of all results, or the first error |
| `ProcessBatch.PartitionsTile` | batch-sliding-window/batch_workflow.go:36-65 | partitions are contiguous, cover [0, recordCount), the clamp changes nothing, and every window is at least one |
| `ProcessBatch.WindowsAddUp` | batch-sliding-window/batch_workflow.go:37-58 | the windows of the partitions add up to SlidingWindowSize and differ by at most one |
| `ProcessBatch.WholeBatch` | batch-sliding-window/batch_workflow.go:32-77 | wherever the partitions stand, their children in flight never exceed SlidingWindowSize in total, and when all have finished their results add up to recordCount |
| `Mutex.UnlockChannelNamesDiffer` | mutex/mutex_workflow.go:171-174 | different clients have different release channels |
| `Mutex.MutualExclusion` | mutex/mutex_workflow.go:45-126 | over every schedule, with retried requests, repeated Lock and any number of server runs, two clients are inside at once only if an unlock timer fired on an owner of the lock or a signal left over from an earlier Lock took effect |
| `Mutex.ProtectionIsLostExactly` | mutex/mutex_workflow.go:45-126 | a step makes a client own the lock that the server does not wait for if and only if the timer fires or a release is taken while the holder owns the lock, or a client locks again with an acquire signal left over |
| `Mutex.CarefulClientsExclude` | mutex/mutex_workflow.go:45-74 | if clients lock again only when nothing of an earlier Lock is left over, an early unlock timer is the only way to lose exclusion |
| `Mutex.OneLockEachExcludes` | mutex/mutex_workflow.go:191-215 | with one Lock per client, as in the sample workflow, the same |
| `Mutex.RunKeepsExclusive` | mutex/mutex_workflow.go:45-126 | as long as neither has happened, who owns the lock is the one the server waits for |
| `Mutex.StepKeepsReleasesSpent` | mutex/mutex_workflow.go:69-72 | a release signal in flight or buffered belongs to a client that has left its critical section |
| `Mutex.EarlyTimerBreaksExclusion` | mutex/mutex_workflow.go:116-124 | whenever the timer fires on a holder inside its critical section while another client waits, both get inside |
| `Mutex.EarlyTimerIsReached` | mutex/mutex_workflow.go:116-124 | for any two clients a schedule from the start leads there |
| `Mutex.LeftoverAcquireBreaksExclusion` | mutex/mutex_workflow.go:66-67 | a client that locks again with an acquire signal left over gets inside while the server waits for another client that is inside |
| `Mutex.LeftoverAcquireIsReached` | mutex/mutex_workflow.go:48-67 | for any two clients a schedule from the start leads there, by way of one retried request and without an early timer |
| `MutexService.GrantsFollowRequests` | mutex/mutex_workflow.go:92-126 | handled requests are a prefix of the received ones, each by one grant or one failed delivery, in order; an ended run has handled all and waits for nobody |
| `MutexService.OnlyClosedClientsAreSkipped` | mutex/mutex_workflow.go:105-114 | at every point of every schedule a skipped request is of a client that had closed, and a closed client stays closed and is never granted the lock again |
| `MutexService.WaitIsBounded` | mutex/mutex_workflow.go:116-124 | with signals that take no time, a request with k requests before it waits at most k unlock timeouts |
| `MutexService.TimerFiresOnTime` | mutex/mutex_workflow.go:116-119 | while a client holds the lock time can pass up to unlockTimeout, and the timer can fire exactly then |
| `MutexProgress.NeverHangs` | mutex/mutex_workflow.go:92-126 | a running server always has a move of its own, whatever its clients have done |
| `MutexProgress.ClosedIsPassedOver` | mutex/mutex_workflow.go:105-114 | a request whose client has closed is passed over, with queue, clients and signals unchanged |
| `MutexProgress.LiveIsGranted` | mutex/mutex_workflow.go:103-115 | a request whose client has not closed is granted, to that client only |
| `MutexProgress.EveryRunCanEnd` | mutex/mutex_workflow.go:92-126 | from every point of every schedule the server can by itself handle all received requests and end |
| `MutexProgress.EveryWaiterCanBeGranted` | mutex/mutex_workflow.go:58-67 | at every point a client that waits in Lock can be granted the lock by moves of the server alone: no request is lost |
| `MutexProgress.UnlockLetsNextIn` | mutex/mutex_workflow.go:69-72 | when the holder unlocks, its release reaches the granting run, which goes on without its timer |
| `MutexProgress.ReleasesNeedUnlocks` | mutex/mutex_workflow.go:120-123 | the server takes no more releases than clients have unlocked |
| `MutexProgress.EntriesAreGrants` | mutex/mutex_workflow.go:66-67 | a client has got inside once for every grant, but for those not yet received |
| `MutexServer.MutexWorkflow` | mutex/mutex_workflow.go:92-126 | the loop handles its requests in arrival order, each until its release or its timer, whichever is first, ends exactly when its channel is empty, takes at most one unlockTimeout per request, and goes through the steps of the server of the state machine |
| `MutexServer.ServeTurn` | mutex/mutex_workflow.go:92-125 | a turn of the loop, as steps of the server: take, grant or skip, and give back by release or timer |
| `Cluster.ClusterManager.constructor` | safe_message_handler/workflow.go:68-104 | all nodes start free, jobs and flags are carried over |
| `Cluster.ClusterManager.GetUnassignedNodes` | safe_message_handler/workflow.go:224-233 | the free nodes in order |
| `Cluster.ClusterManager.GetAssignedNodes` | safe_message_handler/workflow.go:260-276 | the nodes of a job, or without a job all that are not bad, the free ones included |
| `Cluster.ClusterManager.BadNodes` | safe_message_handler/workflow.go:117-125 | the bad nodes |
| `Cluster.ClusterManager.AssignBeforeActivity` | safe_message_handler/workflow.go:147-157 | known job, too few nodes, negative number, or the first free nodes |
| `Cluster.ClusterManager.AssignAfterActivity` | safe_message_handler/workflow.go:172-175 | the chosen nodes carry the job and the job is recorded, nothing else changes |
| `Cluster.ClusterManager.DeleteBeforeActivity` | safe_message_handler/workflow.go:202-207 | the nodes of the job, in order |
| `Cluster.ClusterManager.DeleteAfterActivity` | safe_message_handler/workflow.go:218-220 | these nodes are free, nothing else changes |
| `Cluster.ClusterManager.HealthCheckAfterActivity` | safe_message_handler/workflow.go:255-257 | the nodes found are bad, nothing else changes |
| `Cluster.FindBadNodesActivity` | safe_message_handler/activities.go:41-62 | the nodes whose number is divisible by five, a part of the input; fails exactly when a name is not a number |
| `ClusterSafety.AssignIsAtomic` | safe_message_handler/workflow.go:142-180 | for every interleaving of any handlers, the nodes an assign writes after its activity were still free, and then exactly TotalNumNodes nodes carry the job, the others unchanged |
| `ClusterSafety.DeleteIsAtomic` | safe_message_handler/workflow.go:196-222 | when a delete succeeds, the nodes it frees were all nodes of the job, no node carries the job afterwards, the others are unchanged |
| `ClusterHandlers.HealthCheckIsAtomic` | safe_message_handler/workflow.go:235-258 | when a health check finishes, the nodes found were all good and in the map; afterwards exactly they are bad beside those that were, all else as before |
| `ClusterHandlers.BadAreNotTaken` | safe_message_handler/workflow.go:153-157 | no assign takes a bad node, then or later in the run |
| `ClusterHandlers.AssignAnswers` | safe_message_handler/workflow.go:147-157 | known job, fewer free nodes than asked for, a negative number, or as many free nodes as asked for, the first in order; each exactly when it should be |
| `ClusterHandlers.FailedActivityChangesNothing` | safe_message_handler/workflow.go:165-171 | after a failed activity the state is as before and the lock is free |
| `ClusterHandlers.NothingBeforeStart` | safe_message_handler/workflow.go:131-136 | until the start signal all nodes are free, no job is known and every handler waits |
| `ClusterHandlers.HandlersAreNotDropped` | safe_message_handler/workflow.go:306-312 | no handler is dropped before it is done; continue-as-new waits for all |
| `ClusterHandlers.EveryHandlerCanFinish` | safe_message_handler/workflow.go:130-258 | from every reachable world every handler can be brought to its end |
| `ClusterSafety.NodesStayConsistent` | safe_message_handler/workflow.go:130-276 | the key set never changes and every name in Nodes is free, bad or in JobsAssigned |
| `ClusterSafety.StepKeepsSafe` | safe_message_handler/workflow.go:130-258 | the lock has one holder, and what it saw before its activity is still so |
| `ClusterSafety.RepeatedAssignChangesNothing` | safe_message_handler/workflow.go:147-152 | once a job has been assigned, asking again at any later point of any interleaving changes nothing and reports the nodes it has by then |
| `ClusterSafety.JobsOnlyGrow` | safe_message_handler/workflow.go:175-175 | a recorded job is never forgotten, over any interleaving and any number of runs |
| `ClusterSafety.BadIsLostExactly` | safe_message_handler/workflow.go:202-220 | a step makes a bad node good if and only if it starts the next run or completes the deletion of a job called BAD! |
| `ClusterSafety.BadStaysBad` | safe_message_handler/workflow.go:235-258 | within any run of the chain, when no such deletion is under way or asked for, a bad node stays bad |
| `ClusterSafety.ShutdownStopsTheOthers` | safe_message_handler/workflow.go:131-146 | after shutdown a handler can still get to the nodes, in some continuation, if and only if it was past the check for shutdown and not done |
| `ClusterSafety.ShutdownDoesNotStopWaiters` | safe_message_handler/workflow.go:131-146 | a handler that waits for the lock at shutdown still assigns its nodes |
| `ClusterSafety.AssignAfterShutdown` | safe_message_handler/workflow.go:131-146 | in every cluster a schedule from the start shuts it down and then assigns any number of its nodes to a job |
| `ClusterSafety.ContinueAsNewLosesNodes` | safe_message_handler/workflow.go:86-92 | after continue-as-new a known job that is asked for again is reported with no nodes |
| `ClusterSafety.ContinueAsNewAwaitsStart` | safe_message_handler/workflow.go:288-326 | after continue-as-new, until another start signal arrives, no node is checked, no shutdown is seen and no further run follows |
| `Swarm.Position.Copy` | pso/position.go:31-36 | an equal position that shares nothing with the original |
| `Swarm.NewParticle` | pso/particle.go:14-31 | position and velocity that the draws give, worst fitness remembered, and vectors that are all distinct |
| `Swarm.Particle.UpdateLocation` | pso/particle.go:33-48 | velocity and position change as the formula says, coordinate by coordinate, and the remembered positions stay as they are; the separation it asks for is part of the validity of a swarm |
| `SwarmMotion.MovesTowardsBest` | pso/particle.go:41-46 | without momentum each coordinate moves towards the best positions, strictly if one of them pulls, and not at all when the particle is at both |
| `SwarmMotion.StaysBetween` | pso/particle.go:41-46 | if the pulls add up to at most one, a coordinate ends between its old place and the best positions |
| `SwarmMotion.EachPullIsItsOwn` | pso/particle.go:38-46 | the first coefficient and draw pull to the own best position, the second to that of the swarm; without pulls only inertia is left |
| `SwarmMotion.UnpulledGbestDoesNotMatter` | pso/particle.go:39-44 | without its pull the best position of the swarm does not matter |
| `SwarmMotion.UnpulledPbestDoesNotMatter` | pso/particle.go:38-43 | without its pull the own best position does not matter |
| `SwarmMotion.VelocityIsDisplacement` | pso/particle.go:46-46 | the new velocity is the way that was gone |
| `SwarmMotion.NewParticleIsInBounds` | pso/particle.go:22-29 | a new particle is within the bounds, its velocity at most half the width and in the direction of the larger draw |
| `Swarm.Particle.UpdateFitness` | pso/particle.go:50-56 | the position is evaluated and remembered as a fresh copy exactly when it is strictly better |
| `SwarmMotion.ParticlesRememberBest` | pso/particle.go:50-56 | after any number of iterations every particle remembers the best of its own values, at its location |
| `SwarmMotion.BestIsFirst` | pso/swarm.go:61-67 | the best of the swarm changes only for something strictly better, and then to the first of the best particles |
| `Swarm.Swarm.UpdateParticle` | pso/activities.go:27-36 | one particle is moved and evaluated in place as the activity says, the best position keeps its value, and what is new is not shared |
| `Swarm.Swarm.UpdateBest` | pso/swarm.go:61-67 | the best of the old best and all particles, as a fresh copy when it changes; nothing becomes shared |
| `SwarmIteration.Copy` | pso/swarm.go:91-91 | what an activity is sent: an equal swarm that shares nothing with the original |
| `SwarmIteration.RunActivities` | pso/swarm.go:86-112 | any schedule of starts and completions on objects does what the schedule on values does, and keeps particles and best position free of sharing |
| `SwarmIteration.Iterate` | pso/swarm.go:84-116 | an iteration on objects, in any order of completion, is the iteration on values, and keeps the swarm free of sharing |
| `SwarmIteration.InitParticle` | pso/activities.go:17-25 | a new particle, evaluated once |
| `SwarmIteration.NewSwarm` | pso/swarm.go:21-59 | a new swarm shares nothing, and its best fitness is the minimum of the first evaluations |
| `SwarmSearch.PlayKeepsProgressed` | pso/swarm.go:86-112 | at every point of every schedule each particle is as it was, or as one update of the first swarm leaves it |
| `SwarmSearch.OrderDoesNotMatter` | pso/swarm.go:86-112 | whatever the order of starts and completions, an iteration leaves the same swarm for the same draws |
| `SwarmMotion.EveryRoundCanComplete` | pso/swarm.go:86-112 | however an iteration began, all its activities can complete |
| `SwarmSearch.IterationFindsBest` | pso/swarm.go:84-116 | after an iteration the best fitness is the minimum of 1e20 and all values evaluated so far, belongs to its location and has not grown |
| `SwarmSearch.NewSwarmFindsBest` | pso/swarm.go:21-59 | the same after the initial evaluation |
| `SwarmSearch.ReduceFindsBest` | pso/swarm.go:61-67 | updateBest over freshly evaluated particles finds the minimum |
| `SwarmSearch.SearchFindsBest` | pso/swarm.go:84-151 | the same after any number of iterations, over all runs |
| `SwarmLoop.Optimizer.Optimize` | pso/swarm.go:69-152 | the loop in place gives what the recursive run gives: goal, failure, last step, continue-as-new, crash; and carries out its steps one after the other |
| `SwarmLoop.IterationsOfRun` | pso/swarm.go:84-151 | a run carries out the steps from its first one to the one it reports |
| `SwarmLoop.ChainIsWhole` | pso/workflow.go:102-129 | the chain of child runs stops at the same step, with the same swarm and verdict, as one uninterrupted loop |
| `SwarmLoop.WholeStopsAtGoal` | pso/swarm.go:118-135 | the loop ends in success after the first iteration that reaches the goal, without it after the last step, and with an error at the first failure before that |
| `SwarmLoop.ContinuesAtFirstMultiple` | pso/swarm.go:137-143 | a run continues as new exactly at the first multiple of ContinueAsNewEvery it reaches |
| `SwarmLoop.RunsAdvance` | pso/workflow.go:110-114 | a run that stops early did so at a step from its first to the last, so the next run starts later |
| `SwarmLoop.RunsAreShort` | pso/swarm.go:137-143 | a run carries out at most ContinueAsNewEvery iterations, and reports a step that many from its first at most |
| `SwarmLoop.SafeLimitsNeverPanic` | pso/swarm.go:128-138 | no run from a step can divide by zero, whatever its iterations do, if and only if no step is left, or PrintEvery is not zero and neither is ContinueAsNewEvery unless only the last step is left |
| `SwarmLoop.PanicsAtFirst` | pso/swarm.go:128-138 | a run panics if and only if its limits are not safe and its first iteration neither fails nor reaches the goal |
| `SwarmLoop.SafeLimitsNeverCrash` | pso/workflow.go:102-129 | the chain of runs cannot crash under exactly the same limits |
| `Resume.NothingIsSkipped` | recovery/recovery_workflow.go:190-215 | attempts that resume from any earlier heartbeat finish every item up to the furthest one reached |
| `Resume.EverythingOnce` | retryactivity/retry_activity_workflow.go:43-75 | with the latest heartbeat every time each item is finished once, in order |
| `Resume.AttemptResumes` | retryactivity/retry_activity_workflow.go:47-55 | one more attempt after any earlier heartbeat extends what was finished, and when it reaches the end all is |
| `RetryActivity.BatchProcessingActivity` | retryactivity/retry_activity_workflow.go:43-75 | the tasks an attempt processes, where it fails, and the heartbeat it leaves, for every batch size |
| `RetryActivity.FailsAfterAThird` | retryactivity/retry_activity_workflow.go:64-70 | a failing attempt has processed a third of the batch, rounded down, but at least one task |
| `RetryActivity.RetryWorkflow` | retryactivity/retry_activity_workflow.go:19-39 | for every batch size the activity succeeds within five attempts, every task once in order, after ceil(n / max(1, n/3)) attempts: three or four from three tasks on, and five for five |
| `RetryActivity.FiveTasksNeedFiveAttempts` | retryactivity/retry_activity_workflow.go:27-27 | never more than five attempts are needed, and five exactly for five tasks |
| `RetryActivity.StaleHeartbeatsSkipNothing` | retryactivity/retry_activity_workflow.go:47-55 | with stale heartbeats no task is skipped |
| `Recovery.PlanRecovery` | recovery/recovery_workflow.go:90-102 | concurrency is the requested one within 1 and Count, the batch is Count divided by it, rounded up; division by zero exactly for Count zero |
| `Recovery.RangesPartition` | recovery/recovery_workflow.go:95-134 | every index lies in the range of exactly one of the activities |
| `Recovery.OwnerIsUnique` | recovery/recovery_workflow.go:95-134 | that activity is index divided by batch size |
| `Recovery.RecoverExecutions` | recovery/recovery_workflow.go:176-216 | an attempt recovers consecutive executions after its heartbeat up to the first failure or the end of its range |
| `Recovery.EveryExecutionRecovered` | recovery/recovery_workflow.go:120-138 | when the attempts of all activities have reached the end of their ranges, with any stale heartbeats, every index was recovered, and by one activity only |
| `Recovery.RecoverRange` | recovery/recovery_workflow.go:104-126 | retried attempts of one activity, each with any earlier heartbeat or none, up to the first that succeeds, have then recovered exactly its range |
| `Recovery.RecoverWorkflow` | recovery/recovery_workflow.go:72-143 | when the retried activities of all ranges have succeeded, every execution was recovered, and by exactly one activity |
| `Recovery.ExactlyOnceWithFreshHeartbeats` | recovery/recovery_workflow.go:190-215 | exactly once and in order when each attempt sees the last heartbeat |
| `Uppercaser.UppercaserRun.Send` | reqrespupdate/workflow.go:85-103 | rejected exactly when rejection is on and the limit is reached, otherwise counted and pending |
| `Uppercaser.UppercaserRun.Answer` | reqrespupdate/workflow.go:99-105 | one pending update less, with its reply |
| `Uppercaser.UppercaserRun.TryContinueAsNew` | reqrespupdate/workflow.go:110-120 | continues exactly when the limit is reached and nothing is pending |
| `Uppercaser.DrainBeforeContinueAsNew` | reqrespupdate/workflow.go:80-121 | pendingUpdates is the number of accepted updates without a reply; replies answer their own input; a continued run has replied to all; with rejection at most the limit is accepted |
| `Uppercaser.AnswersAreFinal` | reqrespupdate/workflow.go:96-105 | an accepted update keeps its input and gets one reply, which never changes |
| `Uppercaser.RejectsOnlyWhenFull` | reqrespupdate/workflow.go:85-103 | nothing is rejected before as many updates as the limit were accepted, and nothing without rejection; the next update is accepted exactly then |
| `Uppercaser.PendingCanBeAnswered` | reqrespupdate/workflow.go:103-105 | a pending update can be given any answer of its activity, and is then the only one less |
| `Uppercaser.FullServiceOnlyDrains` | reqrespupdate/workflow.go:85-94 | with rejection on, once the limit is reached pendingUpdates falls by one with each answer and never rises |
| `Uppercaser.FullServiceIsNeverStuck` | reqrespupdate/workflow.go:110-120 | once the limit is reached a run can answer or continue as new |
| `Uppercaser.WithoutRejectionNeverDrains` | reqrespupdate/workflow.go:116-119 | without rejection, from any point with something pending, there are schedules in which any number of updates are answered and pendingUpdates is never zero |

## Left out

- The SDK and the server: retries, histories, queries and logging; only what the section on the environment says is assumed of them.
- External cancellation of a workflow, and a null pointer among the elements of a sequence or the branches of a parallel block.
- `DslConfluence.Confluence`: says nothing of bindings when an activity fails; for races `DslRace.ConfluentExactly` gives the exact condition, for two activities.
- `LruCache.Lru`: list.Element and the cacheEntry in it are one object, container/list is modelled by its ring, and the removal callbacks are a ghost list rather than goroutines.
- `LruSpec`: a zero time is None, clock readings are integer parameters, and counts and sizes have no 64-bit bound.
- `SlidingWindow.Window`: in the chain of runs a failed child start or activity is the one move Fail, which ends the run.
- `ProcessBatch.WholeBatch`: partitions run next to each other on schedules of their own, which share nothing; the GetRecordCount activity is a parameter.
- `Mutex.MutualExclusion`: a workflow that has closed does not come back under the same ID.
- `MutexService.WaitIsBounded`: time passes only while the server waits for a release or is closed, so delivery, retries and backoff take none.
- `Cluster.ClusterManager`: the order of DeterministicKeys is any fixed order of the keys; handlers may get the lock in any order, and a health check may begin whenever the main coroutine waits.
- `Cluster.FindBadNodesActivity`: takes the set of nodes; the workflow passes a map where the activity declares a struct, and what the data converter makes of that is not modelled.
- `Swarm.Particle.UpdateLocation`: coordinates are real numbers without rounding, infinities or NaN, and the random draws are parameters.
- `SwarmLoop.ChainIsWhole`: one iteration is a parameter, and no activity fails with the text that marks continue-as-new; serialisation of the swarm between runs is the identity.
- The attempts of PSOWorkflow (pso/workflow.go:51-97): a plain loop of four attempts, whose closing message says five.
- `Recovery.EveryExecutionRecovered`: is about activities that succeeded; the workflow only logs a failed one and completes anyway (recovery/recovery_workflow.go:125-142).
- Listing executions, reading histories and replaying signals in the recovery sample, which are calls into the server.
- `Uppercaser.UppercaserRun`: the activity's answer is a parameter, as what strings.ToUpper does to Unicode is not modelled.
- Starters, workers, user interfaces, codecs and all other samples, which would add only easy members.
