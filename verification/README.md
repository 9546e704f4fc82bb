# 0x order watcher and block watcher: a Dafny model

The project models the two services at the core of the repository and proves what they promise over whole runs:

- **The block watcher** (`BlockTree`, `WatcherLog`, `WatcherFinality`, `Walk`, `Watcher`) follows the tip of the chain over any number of connections and sends every block and every re-org to its subscribers. `Watcher.Watcher` is the service with its loops. `WatcherLog.Sent` is what a run over a list of accepted tips sends, written without reference to the walk: from the meeting point of the two branches up. The methods are proved to send exactly that, and the properties of the stream (replay, linking, finality and that its bound is tight) are lemmas about it.
- **The batcher** (`BatchQueue`, `BatcherSystem`, `BatcherSafety`, `BatcherTheorems`, `BatcherWaiting`, `BatcherTimers`, `AbiCoding`) merges requests for order states, takes them in bounded batches, calls the exchange contract and replies. `BatchQueue.State` and `BatcherSystem.Batcher` are the objects with their in-place updates; `BatcherSystem.Do` is the whole machine as atomic steps that may come in any order.
- **The life of an order** (`Orders`, `OrderTable`, `LifeCycle`, `LifeCycleRuns`, `Interleaving`, `WholeRuns`, `Races`) from its submission to its deletion, with the table row and the events sent about it. `LifeCycle.App` and `OrderTable.Database` are the objects; `LifeCycleRuns` has all runs with one block at a time, `Interleaving` all runs with any number of blocks in flight. `WholeRuns` says when events and table agree in those, and `Races` shows what goes wrong otherwise.
- **The two codecs** (`Text`, `RowCodec`, `Eip712`, `OrderMembers`): the text columns of the order table, and the EIP-712 pre-image of an order. `OrderMembers` is the reference for both and for the tokens of the call: it names the members of an order, in the order of their type, and every word, token and column is proved to be that of the member it should be.
- `EndToEnd` joins them: deleted rows rest on final blocks, and a requester gets the verdict on its own order.

## Conventions

- The provider of block headers is a partial map from hash to header. Every lookup may fail, and every connection may break at any item. `Consistent` says that a lookup of a hash gives the header with that hash and that a child is one higher than its parent. Where a contract does not ask for it, the provider may answer anything.
- The watcher never ends by itself. `Watcher.Run` therefore takes the list of connections it will see; as the list is arbitrary, a statement about the end of the method is a statement about every moment between two connections. `WatcherLog.IsRun` and `WatcherFinality.ReplayIsAlwaysLinked` cover the moments inside a batch.
- Timers of the batcher may fire at any time after they were set. A stored notification is one permit, as in `tokio::sync::Notify`. Every requester is named by the moment at which it asks.
- What the contract says about an order is a parameter of every step that fetches it, so it may change between any two fetches.
- `Benign`, `Sane` and `Fits` can be evaluated before a step: they look at the row, at what was read of it, and at the state that was fetched.
- A service starts on a table that may hold rows from before. The runs of one order in `LifeCycleRuns` and `Interleaving` begin before its first submission, without a row; that is an assumption about where the history of the order starts.

## Findings

- Finality is one height better than `MAX_REORG`: once a block at height `n` is out, everything up to `n - (MAX_REORG - 1)` stays. One height more would be wrong (`FinalityIsTight`).
- `batch_size` and `concurrent` have to be positive. With a zero in either place no request is ever answered (`NothingIsServedWithoutRoom`), and nothing in the code rejects it.
- A table row and the last event about its order can disagree. When submissions and blocks are dealt with one at a time there are exactly two ways (`RunAgreesIffBenign`): an order that is marked invalid is submitted again while the contract calls it fillable (the insert keeps the mark, the event says `Added`), and the contract reports a fillable status with an invalid signature (the row is marked, and no event says so).
- With several of them in flight two more things matter. What was read may be old: then event and write keep the agreement if and only if they fit the row as it is now (`LateAgreesIffFits`), and a run that cuts no action in two agrees whenever nothing is half done if and only if every step fits (`InterleavedRunAgreesIffFits`). And an action may be cut in two, between a block's event and its write or between a submission's insert and its event. `Races` has a run for each cut, with sane states and no order submitted while marked: a block or another submission inside a submission, and a block, a submission or a purge inside a block. (A purge inside a submission takes nothing unless the row is marked by then.) One block and one first submission are enough, and the order can end up deleted and still on offer (`BlockInsideSubmission`).
- A normal request can wait forever while urgent ones keep coming (`UrgentRequestsStarveOthers`). `WaitIsBounded` is what holds: each batch moves a waiting request forward by a full batch, each new request back by one place at most. An urgent request is never moved back (`UrgentWaitIsBounded`).
- The service accepts an order on the contract's word about its signature and its hash, and later reads it back only if its own recovery and its own hash agree (`AcceptedOrdersAreReadableIff`). One row that does not pass ends every block before any order is revalidated, until the row goes (`App.ProcessBlock`).
- A block below `max_reorg` makes the height subtraction underflow, and its handler panics (`App.ProcessBlock`).
- Every "the hash identifies the order" statement is about collisions: no function to 32 bytes is injective, so `SameHashSameOrder` says that two different orders with one hash show a collision of Keccak in one of the three places where it is used.
- The comment in `types/protobuf/reorgable.proto:7-8` words a re-org the other way round (heights at or below the given one are void). The code sends the height at which the new branch starts, so the heights at and above it are void (`block-watcher/src/lib.rs:242-244`). The model follows the code.

## Model

| member | source | states |
|---|---|---|
| BlockTree.MeetIsHighest | block-watcher/src/lib.rs:207-233 | the highest common ancestor of two tips is on both branches, the branches agree at every height from there down, and share no block above |
| BlockTree.MeetIsUnique | block-watcher/src/lib.rs:216-228 | no other block has that property, so a walk that finds one has found it |
| WatcherLog.ReplayIsTheBranchOfTheTip | block-watcher/src/lib.rs:104-265 | after any run, whatever was skipped, rewound or retried, the replay of all events is exactly the branch of the current tip, without gaps, from the lowest height ever touched |
| WatcherLog.ReplayRewind | block-watcher/src/lib.rs:237-245 | after the re-org event a subscriber is left with exactly what the old branch shares with the new one |
| WatcherLog.JoinBranches | block-watcher/src/lib.rs:247-262 | the shared part followed by the new blocks is the new branch, nothing missing and nothing twice |
| WatcherLog.ReorgIffNotExtension | block-watcher/src/lib.rs:237-245 | a re-org event is sent if and only if the old tip is not an ancestor of the new one |
| WatcherFinality.ReplayIsAlwaysLinked | block-watcher/src/lib.rs:247-262 | at every single event of a run the replay has consecutive numbers and matching parent hashes |
| WatcherFinality.SentSettles | block-watcher/src/lib.rs:211-213 | no event ever reaches MAX_REORG - 1 or more heights below any block sent before it |
| WatcherFinality.ReceivedBlocksFinalise | block-watcher/src/lib.rs:180-235 | once a block at height n was received, the replay up to height n - (MAX_REORG - 1) is the same at every later point of the run |
| WatcherFinality.FinalityIsTight | block-watcher/src/lib.rs:44-44 | there is a run in which the block one height above that is replaced |
| Walk.WalkRewind | block-watcher/src/lib.rs:216-232 | rewinding in lock-step keeps: the old branch was followed down to `last`, the queue is the top of the new branch, and nothing above `last` is shared |
| Walk.WalkBack | block-watcher/src/lib.rs:230-232 | so does following the new branch alone while there is a gap between the two |
| Walk.WalkMeets | block-watcher/src/lib.rs:216-221 | where the walk stops is the highest common ancestor, the queue is what is missing from there, and the two sanity checks cannot fail |
| Walk.WalkOverflows | block-watcher/src/lib.rs:211-213 | when the queue is too long, no common ancestor is within MAX_REORG heights of the new block |
| Watcher.Watcher.constructor | block-watcher/src/lib.rs:105-106 | a new watcher has no tip and has sent nothing, which is the run without tips |
| Watcher.Watcher.FetchHeader | block-watcher/src/lib.rs:294-308 | an answered lookup gives what the provider has under the hash, anything else is one of five errors |
| Watcher.Watcher.SendQueue | block-watcher/src/lib.rs:247-264 | for any queue: all of it is sent, oldest first, if each block extends the one before; otherwise exactly the blocks before the first break, and the error names the break |
| Watcher.Watcher.SendWithReorgs | block-watcher/src/lib.rs:201-265 | with every lookup answered it succeeds if and only if the highest common ancestor is at most MAX_REORG below the new block, otherwise it reports an overflow; it sends the rewind and the missing branch, or nothing at all; no sanity check fails; it looks up only the missing blocks and the way back, and a block directly on the tip is sent without any lookup |
| Watcher.Watcher.Receive | block-watcher/src/lib.rs:178-196 | one header is skipped, accepted or refused as its number, its hash and the meeting point say; a failed lookup leaves the tip alone, and happens only for a higher block that does not extend the tip |
| Watcher.Watcher.FetchLoop | block-watcher/src/lib.rs:169-198 | it ends at the first item it must end at, with the error of that item; the tip is then at or above every block of the feed before, and every tip accepted is one of them; with an unanswered lookup the same holds up to the item that needed it |
| Watcher.CourseStep | block-watcher/src/lib.rs:175-197 | one item at a time leads to what the whole feed leads to |
| Watcher.FollowEnds | block-watcher/src/lib.rs:175-197 | what a feed leads to when lookups are answered: its highest block before the item that ends it, and the error that this item calls for |
| Watcher.Watcher.SendFirst | block-watcher/src/lib.rs:142-148 | the first block is sent without a rewind and starts the run |
| Watcher.Watcher.RunOnce | block-watcher/src/lib.rs:133-154 | a connection continues the run it finds, across disconnects, and moves `last` exactly when it accepted a tip; without a connection or a first block nothing changes |
| Watcher.Watcher.Run | block-watcher/src/lib.rs:104-130 | connection after connection leads to the tips, progress is recorded exactly for those that accepted one, and it gives up at the first moment there were too many tries and never before, with the error of the last connection |
| Watcher.StallIsReal | block-watcher/src/lib.rs:116-119 | the count of tries is exactly the number of connections since the last progress |
| Watcher.GivesUpAfterExactlySo | block-watcher/src/lib.rs:116-128 | giving up comes after exactly MAX_TRIES + 1 connections without progress since the last that had some, or MAX_TRIES + 2 if none ever had; fewer while it goes on |
| Watcher.StallsAreShort | block-watcher/src/lib.rs:121-124 | nowhere in a run do more than MAX_TRIES + 2 connections in a row fail to make progress |
| BatchQueue.State.constructor | order-watcher/src/ethereum/batcher.rs:108-112 | both queues start empty |
| BatchQueue.State.Len | order-watcher/src/ethereum/batcher.rs:135-137 | the number of jobs on the whole schedule |
| BatchQueue.State.TakeBatch | order-watcher/src/ethereum/batcher.rs:139-150 | the batch and the two queues left behind are those of `Taken`, in place |
| BatchQueue.TakenKeepsQueues | order-watcher/src/ethereum/batcher.rs:139-150 | normal jobs are taken only when no urgent one is left, and every job that is left stays in its queue |
| BatchQueue.Taken | order-watcher/src/ethereum/batcher.rs:139-150 | the batch is the front of the schedule (urgent jobs first), as long as allowed, and the rest stays in order |
| BatchQueue.State.Insert | order-watcher/src/ethereum/batcher.rs:152-170 | the in-place insertion ends in the queues that `Inserted` describes, and touches nothing else |
| BatchQueue.Position | order-watcher/src/ethereum/batcher.rs:156-159 | finds the first job for the order, or none |
| BatchQueue.InsertedKeepsBag | order-watcher/src/ethereum/batcher.rs:152-170 | an insertion adds exactly its own requests; no waiting request is lost, doubled or moved to another order |
| BatchQueue.TakenKeepsBag | order-watcher/src/ethereum/batcher.rs:139-150 | a batch and what is left hold exactly the requests that waited |
| BatchQueue.InsertedSchedule | order-watcher/src/ethereum/batcher.rs:152-170 | the schedule afterwards, place by place: the job of the order, with its senders appended, moves from one place to another, and all other jobs are unchanged |
| BatchQueue.InsertedQueues | order-watcher/src/ethereum/batcher.rs:156-169 | an urgent order ends in the priority queue behind those that are there, wherever it waited; a normal one is added to the normal queue if it is in neither |
| BatchQueue.UrgentKeepsItsPlace | order-watcher/src/ethereum/batcher.rs:156-169 | no insertion moves an urgent job |
| BatchQueue.InsertedKeepsDistinct | order-watcher/src/ethereum/batcher.rs:156-164 | no order is ever queued twice across both queues |
| BatchQueue.InsertedDelaysByOne | order-watcher/src/ethereum/batcher.rs:159-164 | the inserted order never moves back, every other order is delayed by at most one place, and the others keep their order |
| BatchQueue.DrainTakesTheSchedule | order-watcher/src/ethereum/batcher.rs:229-244 | batches taken until none is left are, one after the other, exactly the schedule |
| BatchQueue.DrainFillsBatches | order-watcher/src/ethereum/batcher.rs:139-150 | every batch but the last is full, and none is empty |
| BatchQueue.DrainCountsBatches | order-watcher/src/ethereum/batcher.rs:229-244 | the inner loop takes as many batches as the jobs need |
| BatchQueue.BatchesRoundUp | order-watcher/src/ethereum/batcher.rs:229-244 | which is the number of jobs divided by the batch size, rounded up |
| BatcherSystem.Batcher.constructor | order-watcher/src/ethereum/batcher.rs:174-183 | a new batcher has empty queues and nothing that will notify |
| BatcherSystem.Batcher.Insert | order-watcher/src/ethereum/batcher.rs:204-222 | queues, notification and timers afterwards are those of `Enqueue` on the state before |
| BatcherSystem.FetchResult | order-watcher/src/ethereum/batcher.rs:287-302 | a call gives its states exactly when there are as many as orders, its own error when it failed, and the length error otherwise |
| BatcherSystem.JobOf | order-watcher/src/ethereum/batcher.rs:258-271 | the k-th reply of a batch goes to a request for the order of the job it is read off |
| BatcherSafety.PermitsStep | order-watcher/src/ethereum/batcher.rs:232-254 | every step keeps: free permits, the one the runner holds, and those of open calls add up to the limit |
| BatcherSafety.WakeStep | order-watcher/src/ethereum/batcher.rs:204-254 | every step keeps that waiting jobs are waited for |
| BatcherSafety.CallsStep | order-watcher/src/ethereum/batcher.rs:249-273 | every step keeps that everyone in a batch asked before its call went out, and that its output is as long as the batch |
| BatcherSafety.PlacesStep | order-watcher/src/ethereum/batcher.rs:193-273 | every step keeps the account of a request: asked = queued + in flight + served, and none dropped |
| BatcherSafety.RepliesStep | order-watcher/src/ethereum/batcher.rs:257-272 | every step keeps that each reply sent is right for the request it went to |
| BatcherSafety.Reachable | order-watcher/src/ethereum/batcher.rs:173-304 | all of this holds in every state that any interleaving reaches |
| BatcherTheorems.EveryRequestIsInOnePlace | order-watcher/src/ethereum/batcher.rs:193-202 | in every interleaving a request is queued, in flight or served, in one place only and once, so the receiver never finds its channel closed and never gets two replies |
| BatcherTheorems.RepliesAreRightAndFresh | order-watcher/src/ethereum/batcher.rs:234-273 | in every interleaving a reply is the result for the order of its own request, or the error of its batch, from a call that went out after the request was made |
| BatcherTheorems.NoLostWakeUp | order-watcher/src/ethereum/batcher.rs:204-254 | in every interleaving, jobs wait only while a notification, a timer (a short one for urgent jobs) or the runner is due, and open calls never exceed the limit |
| BatcherTheorems.OutsideIsFree | order-watcher/src/ethereum/batcher.rs:192-222 | in every state anyone may ask, set timers may end, and open calls may return anything |
| BatcherTimers.FullBatchesDoNotWait | order-watcher/src/ethereum/batcher.rs:212-215 | in every interleaving, queues that hold a full batch have a stored notification or an awake runner |
| BatcherTimers.EnqueuedSetsOneTimer | order-watcher/src/ethereum/batcher.rs:206-221 | a request sets a timer of its kind exactly when its queue was empty and the batch is not full, and notifies exactly when it completes a batch |
| BatcherTimers.TimersAreFew | order-watcher/src/ethereum/batcher.rs:206-221 | in every interleaving, short timers are no more than urgent requests, long ones no more than normal requests, and at most one short one is set between two batches |
| BatcherTheorems.StepWorks | order-watcher/src/ethereum/batcher.rs:224-276 | every step but a new request uses up work, so the batcher cannot go round in circles |
| BatcherTheorems.NeverStuck | order-watcher/src/ethereum/batcher.rs:224-276 | while a request is not served the batcher can take a step without a new request |
| BatcherTheorems.SchedulesAreShort | order-watcher/src/ethereum/batcher.rs:224-276 | however it is scheduled, the number of steps without a new request is bounded |
| BatcherTheorems.QuietMeansServed | order-watcher/src/ethereum/batcher.rs:193-202 | when no step is left, every request has been served exactly once; so once requests stop coming, every one is answered under every schedule |
| BatcherWaiting.ReachableDistinct | order-watcher/src/ethereum/batcher.rs:152-170 | in no reachable state is an order queued twice |
| BatcherWaiting.WaitingMovesUp | order-watcher/src/ethereum/batcher.rs:139-170 | while a request waits, in every interleaving: its place now and the places won by batches since are no more than its place then and the requests since |
| BatcherWaiting.WaitIsBounded | order-watcher/src/ethereum/batcher.rs:229-244 | a request is in flight or served once the batches taken since hold more than its place and the number of requests since |
| BatcherWaiting.UrgentRequestIsUrgent | order-watcher/src/ethereum/batcher.rs:156-169 | an urgent request makes its order urgent in every state |
| BatcherWaiting.UrgentMovesUp | order-watcher/src/ethereum/batcher.rs:139-170 | while an urgent request waits, in every interleaving, every batch moves it up by a full batch and nothing else moves it |
| BatcherWaiting.UrgentWaitIsBounded | order-watcher/src/ethereum/batcher.rs:229-244 | so it is in flight or served once the batches since hold more than its place, however many requests came in |
| BatcherWaiting.UrgentRequestsStarveOthers | order-watcher/src/ethereum/batcher.rs:139-150 | for every n there is a run in which n urgent requests that came later are served and a normal one still waits |
| BatcherTheorems.NothingIsServedWithoutRoom | order-watcher/src/ethereum/batcher.rs:174-181 | with a batch size or a limit of zero no call is ever made and no request served, in any interleaving |
| AbiCoding.OrderTokenIsInjective | order-watcher/src/ethereum/abi_coding.rs:37-50 | the tokens of an order determine it up to chain id and contract, and nothing more |
| AbiCoding.SignatureTokenIsInjective | order-watcher/src/ethereum/abi_coding.rs:53-71 | the tokens of a signature determine it |
| OrderMembers.OrderTokenFollowsTheType | order-watcher/src/ethereum/abi_coding.rs:32-52 | the contract gets the members of an order in the order of its interface (`exchange.json:5-66`) |
| OrderMembers.SignatureTokenFollowsTheType | order-watcher/src/ethereum/abi_coding.rs:53-71 | and those of a signature (`exchange.json:72-93`) |
| AbiCoding.DecodeStatus | order-watcher/src/ethereum/abi_coding.rs:154-168 | exactly the codes 0 to 4 are known, and none of them is `Added` |
| AbiCoding.FromTokens | order-watcher/src/ethereum/abi_coding.rs:77-151 | one state for each position that all three arrays have, or the error of the first position with an unknown status, or a panic exactly on tokens of the wrong kind |
| AbiCoding.FetchBatchState | order-watcher/src/ethereum/batcher.rs:278-303 | succeeds exactly when the whole output decodes to as many states as there are orders; says when each error comes |
| AbiCoding.NoArrayIsShort | order-watcher/src/ethereum/batcher.rs:298-299 | an output that passes the length check had no array shorter than the batch, although the arrays are cut to the shortest |
| AbiCoding.BatchesStayAligned | order-watcher/src/ethereum/abi_coding.rs:30-152 | if the contract answers position by position, the i-th state is the verdict on the i-th order with the i-th signature |
| Orders.ValidateOrder | order-watcher/src/orders/limit_order.rs:64-79 | an order passes if and only if all six conditions hold, and each error has its own condition |
| Orders.ValidateState | order-watcher/src/orders/signed_order_state.rs:61-70 | a state passes if and only if its signature is valid and its status is open, and each other status has its own error |
| OrderTable.Database.constructor | order-watcher/src/database/mod.rs:81-95 | connecting keeps the rows that are there |
| OrderTable.Database.InsertOrder | order-watcher/src/database/mod.rs:186-208 | a new row is open; an existing row changes only its remaining amount, and keeps its mark; no other row changes |
| OrderTable.Database.UpdateOrder | order-watcher/src/database/mod.rs:217-233 | an existing row gets the amount and loses its mark; nothing is inserted; no other row changes |
| OrderTable.Database.InvalidateOrder | order-watcher/src/database/mod.rs:235-260 | a row is marked unless it already carries the same or a lower block; no other row changes |
| OrderTable.Database.DeleteOrders | order-watcher/src/database/mod.rs:262-279 | exactly the rows marked at or below the block go |
| OrderTable.MarksLeaveTheLowest | order-watcher/src/database/mod.rs:243-252 | any number of marks leaves the lowest of them and the mark before, and nothing else changes |
| OrderTable.MarksCommute | order-watcher/src/database/mod.rs:243-252 | the order in which concurrent marks reach the row does not matter |
| LifeCycle.App.constructor | order-watcher/src/lib.rs:117-129 | a service starts with the rows that are there and has sent no event |
| LifeCycle.App.Send | order-watcher/src/lib.rs:173-180 | an event is the last one of its own order and no event of any other |
| LifeCycle.App.Order | order-watcher/src/lib.rs:132-183 | a submission is accepted exactly when the order and its fetched state are valid; only then the row and the events under the hash in that state change, together, and no other order does; a refusal names the check that failed |
| LifeCycle.App.Revalidate | order-watcher/src/lib.rs:215-279 | row and events of the order change as the row that was read and the fetched state say, and no other order does |
| LifeCycle.App.ProcessBlock | order-watcher/src/lib.rs:312-343 | each order ends as if it were alone: purged, and revalidated with its own state, which for success all that are left must have; a block panics exactly below max_reorg, and a row that cannot be read back ends it with nothing revalidated; says what a failed fetch leaves behind |
| LifeCycle.App.RevalidateAll | order-watcher/src/lib.rs:332-343 | whatever the order of the rows, each is revalidated once with what was read of it; success means that every state was fetched |
| LifeCycle.EventsTellTheFetchedState | order-watcher/src/lib.rs:232-244 | a revalidation sends at most one event, with the fetched status and amount, exactly when an order that is or was fillable changes |
| LifeCycleRuns.MarkIsStartOfStreak | order-watcher/src/lib.rs:252-277 | in every run, with heights that go up and down and any resubmissions, the mark on a row is the block of the first revalidation in the unbroken streak that found it invalid; one that found it valid clears it |
| LifeCycleRuns.StreakIsInvalid | order-watcher/src/lib.rs:265-276 | the streak is exactly the blocks since the last one that found the order valid or left no row, and all of them found it invalid |
| LifeCycleRuns.DeletedIffInvalidForLong | order-watcher/src/lib.rs:312-317 | a block deletes an order if and only if that streak began at or below the height of the block minus max_reorg |
| LifeCycleRuns.RemainingIsOfTheLastValid | order-watcher/src/lib.rs:156-162 | in every run the remaining amount on a row is what was fetched when the order was last found valid, by a submission or a block |
| LifeCycleRuns.CreationTimeStays | order-watcher/src/database/mod.rs:186-208 | in every run the creation time on a row is that of the submission that inserted it, and the row has been there since |
| LifeCycleRuns.StepAgreesIffBenign | order-watcher/src/lib.rs:153-180 | a step keeps the last event and the row in agreement if and only if it is neither a resubmission of a marked order nor a fillable state with an invalid signature |
| LifeCycleRuns.RunAgreesIffBenign | order-watcher/src/lib.rs:132-279 | over every run: the last event offers an order exactly when its row is open, with the same amount, after all steps, if and only if all steps are such |
| LifeCycleRuns.DeletedOrdersAreNotOffered | order-watcher/src/lib.rs:221-277 | then the last event about a deleted order does not offer it |
| LifeCycleRuns.MarkedOrdersWereTold | order-watcher/src/lib.rs:233-244 | in benign runs the last event about a marked order carries the status and the amount that the block in its mark fetched |
| LifeCycleRuns.ResubmissionBreaksAgreement | order-watcher/src/database/mod.rs:206-208 | a concrete run in which the first hypothesis fails and agreement with it |
| LifeCycleRuns.LostSignatureBreaksAgreement | order-watcher/src/lib.rs:239-244 | the same for the second hypothesis |
| Interleaving.MarksHold | order-watcher/src/lib.rs:299-346 | with any number of blocks in flight, the mark is the lowest of those written since the row was inserted or cleared, each from a revalidation that found it invalid |
| Interleaving.PurgedIffMarked | order-watcher/src/lib.rs:312-317 | in every interleaving, rows go exactly when they carry such a mark that is old enough, and then a revalidation of such a block did find the order invalid |
| Interleaving.BlockAlone | order-watcher/src/lib.rs:312-343 | the separate steps of a block that runs alone come to the sequential block |
| Interleaving.SubmissionAlone | order-watcher/src/lib.rs:164-180 | in every state, the two steps of a submission one after the other come to the sequential submission, and leave other work and the marks alone |
| Interleaving.AloneItSettles | order-watcher/src/lib.rs:221-277 | from any row, one revalidation alone leaves it open exactly when the fetched state is valid; repeating it writes nothing, and sends nothing exactly when the state is sane |
| Interleaving.AloneItRepairsIffItEmits | order-watcher/src/lib.rs:239-244 | it brings row and events back together exactly when it sends an event or they agreed already |
| WholeRuns.LateAgreesIffFits | order-watcher/src/lib.rs:221-277 | however old the read of a row is, event and write keep the last event and the row in agreement if and only if they fit the row as it is |
| WholeRuns.FreshFitsIffSane | order-watcher/src/lib.rs:221-277 | with a fresh read that is the sequential condition |
| WholeRuns.AccountStep | order-watcher/src/lib.rs:165-277 | a step that cuts nothing in two keeps the account of what is half done if it fits, and otherwise leaves nothing half done and events and table in disagreement |
| WholeRuns.InterleavedRunAgreesIffFits | order-watcher/src/lib.rs:299-341 | in every interleaving that cuts no action in two: events and table agree whenever nothing is half done, if and only if every step fits |
| WholeRuns.GoneOrdersAreNotOffered | order-watcher/src/lib.rs:299-341 | in those the last event about a deleted order does not offer it |
| Races.BlockInsideSubmission | order-watcher/src/lib.rs:165-180 | a run with one block between the insert and the event of a first submission: the order is marked, then deleted, and stays on offer |
| Races.SubmissionInsideSubmission | order-watcher/src/lib.rs:165-180 | a run with two submissions of one order whose events are sent in the other order: the amounts differ |
| Races.BlockInsideBlock | order-watcher/src/lib.rs:239-274 | a run with a block between the event and the write of another: the row is marked and the order on offer |
| Races.SubmissionInsideBlock | order-watcher/src/lib.rs:239-274 | the same with a submission in between |
| Races.PurgeInsideBlock | order-watcher/src/lib.rs:239-262 | a run with a purge in between: the order is deleted and on offer |
| Races.PurgeAfterRead | order-watcher/src/lib.rs:316-341 | a run that cuts nothing in two, in which the purge comes between read and event and the write does not fit: the order is deleted and on offer |
| Races.RacingBlocksBreakAgreement | order-watcher/src/lib.rs:299-341 | a run of two blocks that leaves an order open in the table and invalid in the events; no later block that finds it as the second one did says anything |
| Text.DecimalRoundTrip | order-watcher/src/database/queryable.rs:129-135 | every number below the bound is read back from its decimal form, by both parsers |
| Text.HexRoundTrip | order-watcher/src/database/queryable.rs:117-127 | every byte string is read back from its hexadecimal form |
| Text.SplitJoin | order-watcher/src/database/queryable.rs:80-80 | splitting undoes joining for parts without the separator |
| Text.SplitCounts | order-watcher/src/database/queryable.rs:80-80 | there is one part more than there are separators |
| RowCodec.SignatureRoundTrip | order-watcher/src/database/mod.rs:301-309 | every signature is read back from its comma-joined form |
| RowCodec.RowRoundTrip | order-watcher/src/database/queryable.rs:42-114 | a stored order is read back in full, except that its chain id is lost and its status is reduced to whether the row is marked |
| RowCodec.BuildSucceedsIff | order-watcher/src/database/queryable.rs:63-113 | a row is read exactly when every column can be, into the order that the columns hold |
| RowCodec.BuildAbortsIff | order-watcher/src/database/queryable.rs:80-99 | a row ends the process exactly when all before its signature can be read and its signature does not have three commas |
| RowCodec.AnyPrefixWillDo | order-watcher/src/database/queryable.rs:117-127 | the two characters in front of a hexadecimal column are not looked at |
| OrderMembers.PrintedRowIsOpen | order-watcher/src/database/mod.rs:186-205 | as it is printed, a new row is read back with its order and as fillable |
| OrderMembers.PrintedRowIsTheInsertedOne | order-watcher/src/database/mod.rs:186-208 | a new row is the one the order table has after an insert without a conflict, without a mark |
| OrderMembers.BuildReadsTheEntry | order-watcher/src/database/queryable.rs:100-109 | what is read of amount and mark is what the order table says |
| OrderMembers.ColumnsHoldTheirMembers | order-watcher/src/database/mod.rs:187-201 | every column of a new row holds the member it is named after |
| OrderMembers.EmptyAddressesAreZero | order-watcher/src/database/queryable.rs:117-120 | an empty address column stands for the zero address, in each of the seven columns and in every row, and nothing else changes |
| RowCodec.Load | order-watcher/src/database/mod.rs:105-114 | all rows built in order, or the failure of the first row that does not build |
| RowCodec.SetChainIds | order-watcher/src/database/mod.rs:125-128 | every order, and nothing else about it, gets the chain id |
| RowCodec.CheckAll | order-watcher/src/database/mod.rs:134-163 | passes all orders unchanged exactly when each passes its checks; a validation error means that all hashes were right |
| RowCodec.GetOrders | order-watcher/src/database/mod.rs:97-165 | the orders of all rows in order, each with its chain id and checked, or the error of one of the rows, with the precedence of the three passes |
| RowCodec.StoredOrdersAreReadBack | order-watcher/src/database/mod.rs:125-144 | a valid order stored under its own hash passes all the checks and comes back unchanged, chain id included |
| RowCodec.AcceptedOrdersAreReadableIff | order-watcher/src/lib.rs:136-162 | an order that passed the checks of a submission can be read back if and only if recovery gives its maker and the contract gave its hash |
| Eip712.BigEndian | order-watcher/src/orders/limit_order.rs:31-37 | the form has exactly the given width |
| Eip712.ToBigEndian | order-watcher/src/orders/limit_order.rs:31-37 | the buffer filled in place is the 32-byte big-endian form |
| Eip712.BigEndianRoundTrip | order-watcher/src/orders/limit_order.rs:31-37 | which is read back to the number |
| Eip712.PaddedIsTheSameNumber | order-watcher/src/orders/limit_order.rs:95-95 | padding an address to a word does not change the number it stands for |
| OrderMembers.StructWordsFollowTheType | order-watcher/src/orders/limit_order.rs:101-117 | every word of the struct pre-image is that of the member at its place in the type (`limit_order.rs:144`), after the hash of the type |
| OrderMembers.DomainWordsFollowTheType | order-watcher/src/orders/limit_order.rs:89-97 | the words of the domain separator are its type, name, version, chain id and contract (`limit_order.rs:139`) |
| OrderMembers.OrderHashFollowsTheDefinition | order-watcher/src/orders/limit_order.rs:81-117 | the hash of an order is the digest of 0x19 0x01, the hash of the domain and the hash of the struct, each of type hash and encoded data, as EIP-712 defines them |
| Eip712.Hasher.Update | order-watcher/src/orders/limit_order.rs:82-85 | what was absorbed is followed by the new bytes |
| Eip712.Hasher.Finalize | order-watcher/src/orders/limit_order.rs:86-86 | the digest of everything absorbed, in order |
| Eip712.DomainHash | order-watcher/src/orders/limit_order.rs:89-97 | the digest of the domain separator's five words, which `DomainWordsFollowTheType` names |
| Eip712.StructHash | order-watcher/src/orders/limit_order.rs:101-117 | the digest of the 13 words of the order, which `StructWordsFollowTheType` names |
| Eip712.Hash | order-watcher/src/orders/limit_order.rs:81-87 | the digest of the prefix and the two hashes, which is the hash EIP-712 defines by `OrderHashFollowsTheDefinition` |
| Eip712.FlatIsInjective | order-watcher/src/orders/limit_order.rs:81-117 | a byte string splits into parts of given widths in one way only |
| Eip712.DomainIsInjective | order-watcher/src/orders/limit_order.rs:89-97 | two orders have the same domain pre-image if and only if they agree on chain id and contract |
| Eip712.StructIsInjective | order-watcher/src/orders/limit_order.rs:101-117 | two orders have the same struct pre-image if and only if they agree on every other field |
| Eip712.SameHashSameOrder | order-watcher/src/orders/limit_order.rs:81-117 | two orders with one hash are the same order, or exhibit a collision of the hash function |
| EndToEnd.PurgedRowsRestOnFinalBlocks | order-watcher/src/lib.rs:316-317 | with max_reorg at least MAX_REORG - 1, the chain up to the block that marked a deleted row is never changed by a later re-org |
| EndToEnd.DeletedOrdersRestOnFinalBlocks | order-watcher/src/lib.rs:312-317 | the same for the block in which the streak of invalid revalidations began, for every order and run |
| EndToEnd.OneHeightLessIsTooLittle | order-watcher/src/lib.rs:316-317 | with max_reorg of MAX_REORG - 2 there is a run in which an order is deleted and the block that began its streak is replaced later |
| EndToEnd.RequestersGetTheirVerdict | order-watcher/src/ethereum/batcher.rs:193-202 | in every interleaving, however a request was merged, promoted and batched, its requester gets an error, or what the contract said about its own order and signature in a call that went out after the request; the contract may answer differently in every call |

## Left out

- Watcher.Watcher.FetchHeader: the other fields of a header are not modelled, and the kinds of failure are chosen freely, since what fails is up to the network.
- Watcher.Watcher.SendWithReorgs: heights are unbounded, so `last + 1` does not overflow at 2^64.
- Watcher.Watcher.Run: delays between connections, and everything about time, are not modelled.
- OrderTable.Database.InvalidateOrder: the panic on converting a height of 2^63 or more to a signed number is not modelled, here and in `DeleteOrders`. The underflow of the height minus `max_reorg` is.
- OrderTable.Database.InsertOrder: database failures are not modelled, nor is a crash between the write and the event; the claims are about completed steps.
- LifeCycle.App.Revalidate: the state is fetched before the call, so a fetch that fails shows in `ProcessBlock`; failures of Kafka are not modelled.
- LifeCycle.App.ProcessBlock: which rows cannot be read back is a parameter; `RowCodec.AcceptedOrdersAreReadableIff` says which they are. Revalidations run one at a time in any order; the interleaved ones are in `Interleaving`, for one order at a time, as no statement of a revalidation touches another order.
- WholeRuns.InterleavedRunAgreesIffFits: runs that cut an action in two are outside its condition; `Races` shows that each kind of cut can break the agreement. A submission that comes in while something is half done counts as a cut even where it changes nothing.
- Interleaving.MarksHold: the limit of ten blocks at a time is not imposed, so there are more runs here than the code allows.
- BatcherSystem.Batcher.Insert: the background task is started with the batcher; it is the runner of `Sys`.
- BatcherTheorems.QuietMeansServed: a panic while decoding (`Crashed` in `AbiCoding`) would drop its requesters; that is not a step of the batcher, since output decoded by the contract's own ABI has tokens of the right kind.
- AbiCoding.FromTokens: a number that is too wide panics here, and signed-number tokens and byte strings are always of the wrong kind; the token library's conversions are not part of this model. Nor are error texts.
- Text.DecimalRoundTrip: other forms the library parsers accept or reject in reading (such as a second `0x`) are not modelled.
- Eip712.SameHashSameOrder: Keccak is any function from byte strings to 32 bytes.
- RowCodec.GetOrders: recovery of a signer (secp256k1) is any function of signature and hash.
- `App::orders` collects the errors of independent submissions.
- The HTTP API, JSON forms, protobuf conversions, metrics, logging, options, build scripts and shutdown carry no state of their own.
- The broadcast channel, the Kafka producer and consumer (`block-watcher/src/producer.rs`, `block-watcher/src/consumer.rs`) may drop or reorder messages; the watcher's properties are about what it sends.
