# LFI: verified model

LFI is a messaging layer over libfabric. This project models the protocols and data structures that LFI puts around the
fabric, and proves what they are for. The fabric itself appears as an oracle: it answers "again", an error or success to
each posted operation, and reports each posted context once, in any order.

- **Progress leadership.** `Leadership` is the election of one progress leader per endpoint as a state machine over
  atomic steps; `ProgressGuards` has the guard objects, whose methods are proved to perform those steps.
- **Requests, contexts and pending operations.** `Lifecycle` is the life of requests, pooled contexts and queued
  operations as a state machine; `Delivery` refines the reading of a completion entry into its four separately locked
  steps, with the other threads in between; `VectorQueues`, `Requests` and `Endpoints` are the objects, proved to refine
  both.
  `WaitNum` is waiting for several requests while other threads complete them. A *script* stands for everything that
  other threads do between two steps of the waiting thread, so a theorem for all scripts covers all interleavings.
- **Collectives.** `RankAssignment` and `Mesh` form a group; `Barrier`, `Reduction` and `Allreduce` are its collectives
  over FIFO channels, for any number of ranks and calls.
- **Byte streams over messages.** `Coalescing`, `ByteStream` and `SocketCalls` are the socket emulation: a scattered send
  becomes announced, separately tagged messages, and everything together is a plain byte stream.
- **Fault tolerance.** `FailureDetection` is the timed heartbeat machine, `CancelComm` the draining of a failed
  communicator, `FailureReports` the reporting of failures to any-source receives, and `IntrusiveList` the list that the
  requests are registered in.
- **Tag routing.** `TagRouting` is the numbering of communicators and the 64-bit word that routes a message; `Bits` has
  the operations on machine words.

Where the code and its documentation disagree the model follows the code: `include/lfi_coll.h:120-121` describes
`lfi_barrier` as holding every process until all have reached it. The root sends its message before it hears from
everyone, so one call does this only for at most two ranks; two consecutive calls do it always.

Six properties that one might expect hold only under a condition, and the exact condition is proved instead:
a waiter can be stranded when a guard registers after the leader it deferred to has left (`Leadership.NeverStrandsIff`);
one barrier call (`Barrier.OneCallIsFullBarrierIff`); the detection time T + ft_ms + max(ft_ms, 1000) + 2g + 1 ms for
scans g apart (`FailureDetection.ShorterBoundIff`; `DetectedInTime` has the bound that always holds); the conservation of
failure reports, by one pass (`FailureReports.FailuresAreConserved`) and over all loops
(`FailuresAreConservedInTheSystemIff`); the agreement of the two ends of a connection on the endpoint they use
(`TagRouting.EndsShareTheEndpointIff`); and the delivery of a completion entry to its own operation only, which fails
when the request is cancelled after it was fetched for the entry (`Delivery.HitsAnotherIff`, `FillsCompleteIff`, with the
failing runs in `NewOperationIsCompletedInstead` and `CompleteRequestIsFilledIn`).

`dafny verify dfyconfig.toml` checks the whole project.

## Model

| member | source | states |
|---|---|---|
| Leadership.OneLeader | src/impl/progress_guard.cpp:31-71 | Under every interleaving of the atomic steps at most one guard leads or hands over; two live guards never both see their flag set; in_progress is set exactly while some guard leads or hands over |
| Leadership.StepKeepsInvariant | src/impl/progress_guard.cpp:31-71 | Every single step keeps one holder, a duplicate-free list of exactly the live guards, and the mutex with exactly the guard in its critical region |
| Leadership.NeverStrandsIff | include/impl/progress_guard.hpp:55-56 | A run never leaves a registered requesting guard without a leader if and only if no requesting guard registers while in_progress is false |
| Leadership.NoStrandedWaiter | include/impl/progress_guard.hpp:48-65 | With construction as one step, whenever a requesting guard is registered some guard leads or hands over |
| Leadership.SplitConstructionStrands | include/impl/progress_guard.hpp:55-56 | With construction in its two steps there is a run that ends with a registered requesting guard and nobody leading |
| Leadership.StrandedOnlyByLateRegistration | src/impl/progress_guard.cpp:42-46 | The only step that can strand anyone is a late registration, and every late registration does |
| Leadership.TryMeans | src/impl/progress_guard.cpp:31-40 | A guard leads after trying exactly if it did before or asks for it while nobody leads |
| Leadership.FirstComeFirstServed | src/impl/progress_guard.cpp:42-65 | In every run, a leader that hands over chooses a waiting guard that registered before every other waiting guard |
| ProgressGuards.EndpointProgress.NewGuard | include/impl/progress_guard.hpp:48-54 | A new guard of the endpoint is the Create step, so heaps with guards match the reachable states |
| ProgressGuards.ProgressGuard.TryAcquire | src/impl/progress_guard.cpp:31-40 | A requesting guard that does not lead swaps true into in_progress and leads exactly if it was false; refines the TryAcquire step |
| ProgressGuards.ProgressGuard.RegisterWaiter | src/impl/progress_guard.cpp:42-46 | The guard goes to the end of the waiter list; refines the Register step |
| ProgressGuards.ProgressGuard.UnregisterWaiter | src/impl/progress_guard.cpp:48-52 | The guard leaves the waiter list; refines the Unregister step |
| ProgressGuards.ProgressGuard.TransferLeaderAndWake | src/impl/progress_guard.cpp:54-71 | The call is a run of the steps: nothing for a guard that does not lead, otherwise the first of the list leads, or without one in_progress is cleared; no other flag changes |
| ProgressGuards.ProgressGuard.TransferIsRun | src/impl/progress_guard.cpp:54-71 | What those steps come to when nobody disturbs them: exactly one successor flag set, or in_progress cleared |
| ProgressGuards.ProgressGuard.Open | include/impl/progress_guard.hpp:48-57 | The constructor is the one-step construction when no other guard comes between its halves |
| ProgressGuards.ProgressGuard.Close | include/impl/progress_guard.hpp:59-65 | The destructor is Unregister followed by the transfer steps |
| VectorQueues.VectorQueue.Push | include/impl/vector_queue.hpp:41-64 | Appends to the represented sequence, doubling the buffer exactly when it is full, also while wrapped |
| VectorQueues.VectorQueue.Grow | include/impl/vector_queue.hpp:42-59 | Doubling keeps the represented sequence in a buffer twice as large |
| VectorQueues.VectorQueue.Pop | include/impl/vector_queue.hpp:66-72 | Drops the first element; nothing on an empty queue |
| VectorQueues.VectorQueue.Front | include/impl/vector_queue.hpp:102-103 | The first element of the represented sequence |
| VectorQueues.VectorQueue.Empty | include/impl/vector_queue.hpp:105 | True exactly when the represented sequence is empty |
| VectorQueues.VectorQueue.At | include/impl/vector_queue.hpp:122-125 | Dereferencing the iterator at a logical index gives that element of the sequence |
| VectorQueues.VectorQueue.Iterate | include/impl/vector_queue.hpp:144-145 | Walking from begin to end meets exactly the represented sequence |
| VectorQueues.VectorQueue.EraseIf | include/impl/vector_queue.hpp:74-100 | In-place compaction keeps exactly the elements that do not satisfy the predicate, in order, in the same buffer |
| VectorQueues.VectorQueue.SlotIsRemainder | include/impl/vector_queue.hpp:82-83 | The compare-and-subtract position is the remainder modulo the capacity that the iterator uses |
| VectorQueues.KeepMembers | include/impl/vector_queue.hpp:74-100 | Exactly the elements that do not satisfy the predicate are kept |
| VectorQueues.KeepConcat | include/impl/vector_queue.hpp:74-100 | Filtering a concatenation is concatenating the filtered parts, so order is kept |
| IntrusiveList.DoubleLinkedList.PushBack | include/impl/DoubleLinkedList.hpp:70-83 | A detached node becomes the last of the represented node sequence; null changes nothing |
| IntrusiveList.DoubleLinkedList.PushFront | include/impl/DoubleLinkedList.hpp:85-98 | A detached node becomes the first of the represented node sequence |
| IntrusiveList.DoubleLinkedList.Erase | include/impl/DoubleLinkedList.hpp:100-124 | A member leaves the sequence fully detached, and the old successor is returned |
| IntrusiveList.DoubleLinkedList.Iterate | include/impl/DoubleLinkedList.hpp:67-68 | Following next from head meets exactly the represented sequence |
| IntrusiveList.Replay | include/impl/DoubleLinkedList.hpp:70-124 | Any legal series of insertions and removals on the linked nodes is that series on the sequence, and nodes outside the list are detached |
| IntrusiveList.Perform | include/impl/DoubleLinkedList.hpp:70-124 | One call: a node comes last, comes first, or leaves its place with the rest in order |
| IntrusiveList.LegalRunsConserveNodes | include/impl/DoubleLinkedList.hpp:70-124 | No legal series duplicates a node: membership is insertions minus removals |
| Requests.Request.Reset | src/impl/lfi_request.cpp:103-115 | All fields return to their initial values and the old context no longer points to the request |
| Requests.Request.Complete | src/impl/lfi_request.cpp:117-149 | Nothing on a completed request; otherwise the error is stored, the context detached, and the shared wait counter counted down by one |
| Requests.ContextFactory.Create | include/impl/lfi_request_context.hpp:60-70 | The most recently pooled context, or a new one, assigned to the request |
| Requests.ContextFactory.Destroy | include/impl/lfi_request_context.hpp:72-76 | The context is unassigned and pooled |
| Delivery.ContextSafety | include/impl/lfi_request_context.hpp:59-76 | In every reachable state, also in the middle of a delivery, a context is assigned to a request exactly when it is the context of that request; pooled contexts are distinct and unassigned; no context is in two of pool, queues, fabric (or the hands of the leader) and lost set |
| Lifecycle.LateCompletionIsHarmless | src/impl/lfi_endpoint.cpp:236-285 | Read without interruption, a completion changes no request but the one whose current operation it completes, and completes that one with its outcome; with interruptions see the rows of Delivery |
| Delivery.ActKeepsGood | src/impl/lfi_endpoint.cpp:266-284 | Fetching the request, filling it in, completing it and pooling the context, and every step of other threads in between, keep the invariant and leave the context of the entry with the leader |
| Delivery.HitsAnotherIff | src/impl/lfi_endpoint.cpp:266-284 | For every delivery and all that other threads do after its fetch: filling or completing changes a request that works on another operation than that of the entry if and only if the fetched request was submitted again since and the guard of the step holds (a receive whose fields differ, a request under way); no other request is ever changed |
| Delivery.OwnUntilResubmitted | src/impl/lfi_endpoint.cpp:266-284 | While a delivery lasts, its request works on the operation of the entry exactly until it is submitted again |
| Delivery.FillsCompleteIff | src/impl/lfi_endpoint.cpp:274-280 | Without a new submission, a delivery fills a request in that is already complete if and only if another thread completed it between the fetch and the filling and it is a receive |
| Delivery.NewOperationIsCompletedInstead | src/impl/lfi_endpoint.cpp:266-283 | In every state with a posted operation there is a run in which its request is cancelled after the fetch, submitted again, and its new operation completed as successful while it still waits in a queue |
| Delivery.CompleteRequestIsFilledIn | src/impl/lfi_endpoint.cpp:274-280 | In every state with a posted receive there is a run in which the cancelled and complete request still gets size, tag and source of the entry |
| Delivery.PostedReceiveIsReachable | src/impl/recv.cpp:113-124 | Such states are reachable |
| Delivery.UndisturbedDelivery | src/impl/lfi_endpoint.cpp:266-284 | A delivery that nobody disturbs is the one-step reading of the life cycle |
| Delivery.RunIsPlay | src/impl/lfi_endpoint.cpp:266-284 | So every run with one-step readings is a run with deliveries in steps |
| Lifecycle.StepKeepsInvariant | src/impl/lfi_endpoint.cpp:129-285 | Every submission, posting, completion, cancellation and completion call keeps the whole invariant of contexts, queues and tickets |
| Delivery.PostingOrder | src/impl/lfi_endpoint.cpp:129-211 | In every reachable state and for each queue, what posting took out followed by what is queued is what was pushed minus what was cancelled, in order, and nothing is taken out twice |
| Lifecycle.PassIsRun | src/impl/lfi_endpoint.cpp:208-210 | A posting pass is a run of posting steps and touches the normal queue only when the priority queue is empty |
| Lifecycle.PassMeans | src/impl/lfi_endpoint.cpp:129-211 | A pass takes the first n queued operations, priority ones first and each in the order of its queue; operation j gets the answer j of the fabric, none of them the answer again, and the next one, if there is one, does |
| Lifecycle.PassEmptiesQueues | src/impl/lfi_endpoint.cpp:129-211 | With a fabric that never answers again both queues are empty after a pass and every queued ticket has been taken in order |
| Lifecycle.PostMeans | src/impl/lfi_endpoint.cpp:132-202 | By the answer: again leaves everything, success hands the operation to the fabric under its ticket or, for an inject, pools its context, and an error loses the context |
| Lifecycle.CancelRemovesOnlyItsOwn | src/impl/lfi_request.cpp:167-176 | Cancelling removes from the queues at most the operation of its own request and leaves everything else as it is |
| Lifecycle.LostOnlyByCancelOrError | src/impl/lfi_request.cpp:171-174 | A context is lost only by cancelling a queued operation or by a posting that fails |
| Delivery.CancelCompletes | src/impl/lfi_request.cpp:163-219 | Whatever other threads, deliveries under way and the progress call do between the erasure, the test and the final completion, the cancelled request ends complete with its operation in no queue; its error is that of the first act that ended its operation, and without one LFI_BROKEN_COMM if it is no inject and its communicator was cancelled or it carried that error, otherwise LFI_CANCELED |
| Delivery.CancelOfComplete | src/impl/lfi_request.cpp:179-182 | Cancelling a complete request does nothing; only a delivery that fetched it before may still fill it in |
| Delivery.CancelSparesOthers | src/impl/lfi_request.cpp:163-219 | Every other request that is not submitted again becomes exactly what the acts of the others make of it |
| Delivery.OnlyCompletes | src/impl/lfi_endpoint.cpp:129-289 | Over any run, a request that is not submitted again is completed by the first act that ends its operation and filled in by the last delivery that fetched it, complete or not, and nothing else changes it |
| Delivery.UnfilledIsSameOrCompleted | src/impl/lfi_endpoint.cpp:274-280 | Without such a filling it is as it was or completed |
| Lifecycle.ProgressIsRun | src/impl/lfi_endpoint.cpp:213-289 | What one progress call does is a run of completion and posting steps |
| Lifecycle.NewRequestKeepsInvariant | src/impl/lfi_request.cpp:34-35 | A new request, which has no operation outstanding, keeps the invariant |
| Lifecycle.ProgressQueuesNothing | src/impl/lfi_endpoint.cpp:213-289 | Progress puts nothing into the queues |
| Endpoints.EraseContext | src/impl/lfi_request.cpp:171-174 | One erase_if call with the predicate of cancel is the erasure of the state machine |
| Endpoints.Endpoint.Complete | src/impl/lfi_request.cpp:117-149 | The heap after the call matches the completed abstract state |
| Endpoints.Endpoint.HandleCompletion | src/impl/lfi_endpoint.cpp:263-285 | One completion entry that nobody disturbs: fetch, fill, complete and pool the context come to the one-step reading |
| Endpoints.Endpoint.FetchEntry | src/impl/lfi_endpoint.cpp:263-272 | The fetch step: the leader keeps the request that the context is assigned to |
| Endpoints.Endpoint.FillEntry | src/impl/lfi_endpoint.cpp:273-281 | The fill step: a receive gets length, tag and source, whatever has become of the request |
| Endpoints.Endpoint.FinishEntry | src/impl/lfi_endpoint.cpp:283 | The completion step on the fetched request |
| Endpoints.Endpoint.ReleaseEntry | src/impl/lfi_endpoint.cpp:284 | The context is unassigned and pooled |
| Endpoints.Endpoint.PostTurn | src/impl/lfi_endpoint.cpp:132-202 | One turn of the posting loop is one posting step; "again" leaves everything as it is |
| Endpoints.Endpoint.ProcessQueue | src/impl/lfi_endpoint.cpp:131-206 | The posting loop drains the queue up to the first "again" of the fabric |
| Endpoints.Endpoint.PostPendingOps | src/impl/lfi_endpoint.cpp:129-211 | Both queues in their order are one posting pass of the state machine; on the heap the first n queued operations are gone, none of which got the answer again, and the next one did or there is none |
| Endpoints.Endpoint.Submit | src/impl/send.cpp:103-129 | Reset, fields, context and queue push are one submission step |
| Lifecycle.SubmitMeans | src/impl/send.cpp:103-145 | A submission sets size, tag, source and operation type of the request, takes the last pooled context or a new one, and appends an operation of the right kind to the queue it asked for and nothing to the other |
| Lifecycle.CompletionMeans | src/impl/lfi_endpoint.cpp:245-284 | Reading an entry at once: success or the code of the reason, and for a received message its length, tag and source |
| Endpoints.Endpoint.EraseQueuedOps | src/impl/lfi_request.cpp:167-176 | The operation of the context of the request leaves both queues |
| Endpoints.Endpoint.MakeProgress | src/impl/lfi_endpoint.cpp:213-289 | Reading the completion queue undisturbed and then posting is one progress call of the state machine |
| Endpoints.Endpoint.Cancel | src/impl/lfi_request.cpp:163-219 | The whole cancel call, with any postings, cancellations and completions of other threads and any steps of deliveries before and after its test, is the cancellation of the state machine; when nothing else ends the operation the error is one of the two, by the same condition |
| Endpoints.Endpoint.Meanwhile | src/impl/lfi_endpoint.cpp:129-285 | Any series of postings, delivery steps, completions and cancellations does to the heap what it does to the state |
| Endpoints.Endpoint.NewRequest | src/impl/lfi_request.cpp:34-35 | A new request joins the endpoint complete, with no operation, and the heap matches the state with it |
| WaitNum.CompleteOne | src/impl/lfi_request.cpp:134-149 | A completion leaves the sum of every wait counter and the completed requests that point to it unchanged |
| WaitNum.AttachOne | src/impl/wait.cpp:192-205 | Setting up one request counts it exactly if it is already complete, and takes an old timeout mark off it if it is not |
| WaitNum.Attach | src/impl/wait.cpp:192-211 | After setup all requests point to the structure, wait_count plus the completed ones is how_many, and complete are exactly those complete before and those that other threads completed during it |
| WaitNum.AwaitCount | src/impl/wait.cpp:213-252 | The waiting loop leaves at the first turn at which enough requests are complete or the clock expires, and blocks exactly if neither comes; the accounting is kept |
| WaitNum.Collect | src/impl/wait.cpp:254-275 | From the given start the scan finds the first request in cyclic order that is complete when it gets to it, or none, and every request is detached |
| WaitNum.FirstCompleteIsUnique | src/impl/wait.cpp:254-275 | That leaves only one possible result |
| WaitNum.FirstOfThoseAtExit | src/impl/wait.cpp:254-275 | No request that the scan meets before the result was complete when the waiting ended |
| WaitNum.Wait | src/impl/wait.cpp:54-111 | Success if and only if the request is complete at the start or completes in a batch no later than the first in which the clock of a timed call expires, a timeout if and only if such a batch leaves it incomplete, blocked if and only if neither happens; the error of a request is set only by its completion or by the reported timeout |
| WaitNum.WaitShared | src/impl/wait.cpp:187-283 | The part with the shared count: the result and the counter are those of the events, the index starting from the old counter |
| WaitNum.WaitNum | src/impl/wait.cpp:173-283 | The result is determined by the counter, the requests complete at the start and what other threads do: for one request as in a single wait; otherwise the first complete request in cyclic order from the old counter modulo the number of requests, a timeout, or blocking. On success at least how_many are complete, the counter advances by one, no request points to the stack structure, complete requests keep the error they were completed with, and the others are marked as timed out unless they carry another error |
| WaitNum.LeavesInTimeIff | src/impl/wait.cpp:213-252 | The waiting ends without a timeout exactly at the first turn after which enough requests are complete, if the clock has not expired before |
| WaitNum.LeavesLateIff | src/impl/wait.cpp:213-252 | It ends with a timeout exactly at the turn in which the clock of a timed call first expires, if too few were complete before it |
| WaitNum.StuckIff | src/impl/wait.cpp:213-252 | It never ends exactly if never enough are complete and the clock does not expire |
| WaitNum.FirstCompleteMeans | src/impl/wait.cpp:254-275 | The scan goes from the start to the end and then from the beginning, one position a turn |
| RankAssignment.FindSlot | src/lfi_coll.cpp:134-141 | The inner loop finds the lowest free slot with the host name, or none if there is none |
| RankAssignment.OtherSlotsStay | src/lfi_coll.cpp:118-149 | Slot 0 holds the port of the coordinator, and a slot whose rank nobody was given stays free |
| RankAssignment.Coordinate | src/lfi_coll.cpp:115-153 | The port table and the answered ranks are those of first-free-slot assignment, or the error of the first failed accept is returned |
| RankAssignment.RefusedOnlyWhenFull | src/lfi_coll.cpp:136-146 | A worker is refused if and only if every slot with its host name is taken when it arrives; earlier answers stay |
| RankAssignment.RanksAreRight | src/lfi_coll.cpp:136-149 | No rank is given twice, each carries the host name of its worker, and the table holds its port |
| RankAssignment.PlacedPerHost | src/lfi_coll.cpp:136-149 | Per host, as many workers get a rank as the smaller of arrivals and slots |
| RankAssignment.NobodyRefusedIff | src/lfi_coll.cpp:122-153 | A full set of workers is accepted if and only if its host names are those of hostnames[1..] as a multiset |
| RankAssignment.GreedyIsBijection | src/lfi_coll.cpp:122-153 | In that case, for every arrival order, each rank 1..n-1 has exactly one worker, with its host name and its port |
| RankAssignment.PortMinusOneRepeatsRank | src/lfi_coll.cpp:137-148 | Why ports must differ from -1: such a worker leaves its slot free and the rank is given twice |
| Mesh.NeverStuck | src/lfi_coll.cpp:199-222 | While a process is not through, some connect meets an accept: no deadlock for any number of processes and any accept order |
| Mesh.MeshCompletes | src/lfi_coll.cpp:199-222 | Every run has bounded length, and wherever nothing more can happen each pair is connected once, lower slots name the right rank and higher slots are a permutation |
| Mesh.Build | src/lfi_coll.cpp:199-222 | Scheduling any enabled meeting until none is left terminates in a full mesh |
| Mesh.StepKeepsInvariant | src/lfi_coll.cpp:214 | Every meeting keeps the counting invariant of connects and accepts |
| Mesh.HigherSlotsMayBeSwapped | src/lfi_coll.cpp:214 | A run in which the slots above the own rank do not name the right ranks |
| Barrier.PostAll | src/lfi_coll.cpp:279-311 | One call posts exactly one receive and one send per peer, the root for all workers and a worker for the root |
| Barrier.RootLeavesLast | src/lfi_coll.cpp:279-296 | The root returns from call k only after every rank entered call k |
| Barrier.TwoCallsAreFullBarrier | src/lfi_coll.cpp:269-327 | Nobody returns from call k+1 before every rank entered call k |
| Barrier.OneCallIsFullBarrierIff | src/lfi_coll.cpp:281-291 | One call is a full barrier if and only if the group has at most two ranks |
| Barrier.WorkerPassesEarly | src/lfi_coll.cpp:289-291 | For three or more ranks a run in which a worker returns before another has entered |
| Barrier.EveryCallReturns | src/lfi_coll.cpp:313-322 | No deadlock: when all entered call k and no call can go on, all returned |
| Barrier.CallsEnd | src/lfi_coll.cpp:269-327 | While no rank enters another call only 5nk steps can happen, k the number of calls entered: with the row above, every call returns |
| Reduction.Operate | src/lfi_coll.cpp:385-408 | For MIN the result is one of the operands and at most each of them, for MAX at least each, for SUM and PROD it is their sum or product, for unsigned types modulo the width; there is no result exactly where a signed sum or product of the first so many operands leaves the type |
| Reduction.ExactIgnoresOrder | src/lfi_coll.cpp:389-406 | The mathematical fold of minimum, maximum, sum or product depends only on the multiset of the buffers |
| Reduction.MachineIsExact | src/lfi_coll.cpp:389-406 | Wherever the machine fold has a result it is the exact fold, reduced modulo the width for unsigned types; minimum, maximum and unsigned types always have one |
| Reduction.ResultIgnoresOrder | src/lfi_coll.cpp:389-406 | Two orders of the same operands that both have a result have the same one |
| Reduction.OverflowDependsOnOrder | src/lfi_coll.cpp:399-401 | Whether a signed sum overflows does depend on the order |
| Allreduce.EveryRankAgrees | src/lfi_coll.cpp:413-510 | In every interleaving of any number of calls, what a rank obtains in call k is the reduction of exactly the inputs of call k in rank order, for every order of the slots |
| Allreduce.EveryResultIsReduction | src/lfi_coll.cpp:413-510 | What a rank obtains in call k is for MIN the input of some rank to call k and at most that of every rank, for MAX at least, and for SUM and PROD the sum or product over all ranks, for unsigned types modulo the width |
| Allreduce.RootComputesValue | src/lfi_coll.cpp:454-470 | What the root computes from its gather buffers, which are in slot order, is the reduction in rank order |
| Allreduce.OneCallSynchronises | src/lfi_coll.cpp:448-494 | Nobody returns from call k before every rank has entered it: unlike the barrier, one all-reduce is a full barrier |
| Allreduce.EveryCallReturns | src/lfi_coll.cpp:448-508 | No deadlock, unless the fold of the root overflows |
| Allreduce.CallsEnd | src/lfi_coll.cpp:448-508 | While no process enters another call only 5nk steps can happen: with the row above, every call returns |
| Allreduce.StepKeepsInvariant | src/lfi_coll.cpp:426-494 | Every step keeps channel contents, buffers and results tied to the inputs of their call |
| Allreduce.MeshFitsAllreduce | src/lfi_coll.cpp:214 | The slots of a finished mesh are a permutation of the workers, as the all-reduce needs |
| Coalescing.Coalesce | ld_preload/ld_preload.cpp:470-492 | The loop computes the greedy grouping |
| Coalescing.GroupsPartition | ld_preload/ld_preload.cpp:470-483 | Every iovec is in exactly one group, in order |
| Coalescing.GroupsAreGood | ld_preload/ld_preload.cpp:477-483 | Group sizes are the sums of their iovecs, and a group exceeds the limit only when it has exactly one iovec that is not empty |
| Coalescing.GroupsAreMaximal | ld_preload/ld_preload.cpp:476-481 | A group ends only where the next iovec would not have fitted |
| Coalescing.CoalescingKeepsBytes | ld_preload/ld_preload.cpp:465-533 | The contents of the groups, one after the other, are the contents of the iovecs, each group as long as announced |
| Coalescing.ComputeSize | ld_preload/ld_preload.cpp:494-502 | The size of the copy buffer is the total of the groups with several iovecs |
| Coalescing.CopyGroup | ld_preload/ld_preload.cpp:521-526 | The iovecs of a group are copied one behind the other, and nothing before them changes |
| Coalescing.Assemble | ld_preload/ld_preload.cpp:505-533 | Every message carries exactly the bytes of its group, from the caller or from the copy buffer, which is exactly used up |
| ByteStream.StepRefinesStream | ld_preload/ld_preload.cpp:309-583 | Every step is a step of a plain byte stream: a send appends its bytes, a receive removes and delivers a prefix, all else is invisible |
| ByteStream.BytesAreConserved | ld_preload/ld_preload.cpp:391-583 | For any sends, completion orders and reads: delivered, unread and in-flight bytes are the bytes sent, in order, and the eventfd counts the buffers |
| ByteStream.SendRefines | ld_preload/ld_preload.cpp:540-573 | A send whose tags are unused and not that of the announcements appends exactly the bytes of its iovecs to the stream |
| ByteStream.CompleteKeepsStream | ld_preload/ld_preload.cpp:324-343 | A message that completes, in whatever order, does not change the stream |
| ByteStream.PushKeeps | ld_preload/ld_preload.cpp:345-350 | Handing over a fully gathered buffer does not change the stream |
| ByteStream.ReceiveTakesPrefix | ld_preload/ld_preload.cpp:406-443 | A read delivers a prefix of the stream and removes it |
| ByteStream.ReceiveLength | ld_preload/ld_preload.cpp:406-443 | A read without a buffer delivers nothing; otherwise it delivers the total of the given sizes or all that the front buffer has left, whichever is less, and the buffer goes exactly when it is used up |
| ByteStream.AllBytesCanArrive | ld_preload/ld_preload.cpp:309-443 | In every reachable state all the bytes sent so far can still be delivered in order, without a further send |
| SocketCalls.SendMsg | ld_preload/ld_preload.cpp:446-583 | The call returns the number of bytes, announces each message with its size and tag, and each message carries the bytes of its group |
| SocketCalls.TagsAreDistinct | ld_preload/ld_preload.cpp:549-550 | Messages fewer than 963002 apart have different tags, also where the 32-bit counter wraps around |
| SocketCalls.TagsMeet | ld_preload/ld_preload.cpp:549-550 | 963002 messages apart two tags can be equal, so the bound is exact |
| SocketCalls.TagIsAnnounceTagIff | ld_preload/ld_preload.cpp:550 | Exactly which negative counter values give the tag of the announcements |
| SocketCalls.AnnounceableIff | ld_preload/ld_preload.cpp:540-573 | While outstanding messages and those of a send took their counts from a window of 963002, the hypothesis of the stream theorem on a send holds if and only if it has at most 1024 messages, every size fits its field, and no count is one of those values |
| SocketCalls.PostReceives | ld_preload/ld_preload.cpp:322-334 | Receive i is posted at the total of the sizes before it |
| SocketCalls.GatherMessages | ld_preload/ld_preload.cpp:309-343 | The buffer is the concatenation of the messages, whatever the order in which they complete |
| SocketCalls.Scatter | ld_preload/ld_preload.cpp:415-430 | Each piece gets exactly its share of the front buffer and keeps the rest; the loop stops when the buffer is used up |
| SocketCalls.FilledBytes | ld_preload/ld_preload.cpp:415-430 | Byte by byte: a piece gets the data at its own place, as far as there is any, and keeps the rest |
| SocketCalls.LfiSocket.RecvMsg | ld_preload/ld_preload.cpp:391-444 | -1 and nothing changed without a buffer; otherwise the result is the total of the sizes or what the front buffer has left, whichever is less, the unread bytes are those before without the first so many, and the front buffer goes, with its eventfd count, exactly when used up |
| SocketCalls.LfiSocket.Deliver | ld_preload/ld_preload.cpp:345-350 | A gathered buffer goes to the end of the queue and is counted |
| FailureDetection.Communicator.Process | src/impl/ft_manager.cpp:116-166 | One scan: state, heartbeat and timestamps change as the function says, and the communicator is listed exactly when it moves to ERROR |
| FailureDetection.ListedAtMostOnce | src/impl/ft_manager.cpp:137-163 | ERROR is absorbing, and over any run a communicator is listed once if it ends in ERROR and never otherwise |
| FailureDetection.TimeoutIff | src/impl/ft_manager.cpp:157-163 | An unanswered heartbeat fails the communicator exactly from max(ft_ms, 1000) + 1 ms after it was sent, never earlier |
| FailureDetection.ProbeIff | src/impl/ft_manager.cpp:126-148 | An idle communicator is probed exactly when it has been silent for ft_ms, and the heartbeat is stamped with the clock |
| FailureDetection.AnsweredIff | src/impl/ft_manager.cpp:152-157 | A heartbeat is accepted exactly when it has completed and read the code |
| FailureDetection.AnswerCounts | src/impl/ft_manager.cpp:152-157 | The answer that completed the heartbeat decides: the next scan returns to IDLE if and only if it is the code, and a later one changes nothing |
| FailureDetection.RequestPutsProbeOff | src/impl/ft_manager.cpp:126-148 | After a successful request the next scan leaves an idle communicator alone if and only if it comes less than ft_ms later |
| FailureDetection.UnusedIsLeftAlone | src/impl/ft_manager.cpp:120-124 | Over any run in which no scan finds outstanding requests, the status of a communicator stays and it is never listed |
| FailureDetection.WrappedSilenceIsNotProbed | src/impl/ft_manager.cpp:128 | After 2^31 ms of silence the 32-bit elapsed time is negative and no heartbeat is sent |
| FailureDetection.DetectedInTime | src/impl/ft_manager.cpp:116-166 | With nothing completing after T and scans at most g apart, ERROR is reached by T + max(ft_ms, g) + max(ft_ms, 1000) + 2g + d + 1 ms, d the delay of the heartbeat stamp |
| FailureDetection.BoundForFrequentScans | src/impl/ft_manager.cpp:116-166 | Without stamp delay the bound is T + ft_ms + max(ft_ms, 1000) + 2g + 1 ms if and only if g is at most ft_ms |
| FailureDetection.ShorterBoundIff | src/impl/ft_manager.cpp:116-166 | That shorter bound holds for all communicators and all scans at most g apart if and only if g is at most ft_ms, or no scan so late can be measured in 32 bits |
| FailureDetection.SlowScansMiss | src/impl/ft_manager.cpp:116-166 | For every ft_ms and every larger g a series of scans that misses the shorter bound |
| CancelComm.CompleteRequest | src/impl/ft_manager.cpp:83-107 | A request leaves the list before it is completed; a completed one is left alone |
| CancelComm.Submit | src/impl/send.cpp:85-92 | A submission on a cancelled communicator fails with a broken-communicator error and registers nothing |
| CancelComm.Cancel | src/impl/lfi_request.cpp:163-219 | The request ends complete and unregistered; unless something else completed it, with LFI_CANCELED for an inject and otherwise LFI_BROKEN_COMM |
| CancelComm.CancelAll | src/impl/ft_manager.cpp:278-293 | The draining loop terminates with the list empty; every formerly registered request is complete, unless something else completed it with LFI_CANCELED for an inject and otherwise LFI_BROKEN_COMM |
| FailureReports.EndpointReports.ReportPending | src/impl/ft_manager.cpp:176-201 | Older failures are matched one to one with waiting any-source requests until one of the two runs out, and both are removed |
| FailureReports.EndpointReports.ReportCanceled | src/impl/ft_manager.cpp:203-204 | New failures are matched in their order with the requests that are left |
| FailureReports.EndpointReports.MatchAll | src/impl/ft_manager.cpp:168-210 | One pass reports the smaller of requests and failures, older failures first, and keeps the others |
| FailureReports.EndpointReports.HandleReports | src/impl/ft_manager.cpp:168-216 | Every told request ends complete with the failed communicator as source; source, error and completion of all others are as before |
| FailureReports.FailuresAreConserved | src/impl/ft_manager.cpp:201-209 | Reported plus pending is previously pending plus new, as multisets, if and only if the kept failures are distinct and not yet pending |
| FailureReports.FailuresAreAccountedFor | src/impl/ft_manager.cpp:218-276 | Over any series of loops, with or without a waiting any-source request, and whatever happens to the communicators: reported, still pending and dropped failures are those pending at first and the communicators that went to ERROR meanwhile, as multisets |
| FailureReports.NothingDroppedIff | src/impl/ft_manager.cpp:274-275 | Nothing is dropped if and only if every communicator that fails does so in a loop in which an any-source request waits |
| FailureReports.FailuresAreConservedInTheSystemIff | src/impl/ft_manager.cpp:218-276 | Reported and still pending failures are all of them if and only if that is so |
| FailureReports.ListedWhenFailing | src/impl/ft_manager.cpp:137-163 | A round lists a communicator once if it fails in it and otherwise never |
| TagRouting.CommTable.ReserveComm | src/impl/comm.cpp:67-76 | The counter is given out and remembered as reserved; no other number changes |
| TagRouting.CommTable.InitComm | src/impl/comm.cpp:58-98 | A reserved number gets a communicator that does not know its number at the other end yet, of the kind that the process chooses |
| TagRouting.CommTable.LearnRank | src/impl/connection.cpp:222-232 | The number received from the other end is stored in the communicator |
| TagRouting.CommTable.CloseComm | src/impl/comm.cpp:181-204 | Not found exactly for a number that is not reserved, a wait while the connection is not made, and otherwise the communicator is removed |
| TagRouting.DirectedReceive | src/impl/recv.cpp:94-102 | A directed receive matches if and only if the message was sent over the other end of that communicator with the same tag |
| TagRouting.AnySourceReceive | src/impl/lfi_endpoint.cpp:276-280 | An any-source receive matches on the tag alone and reports the own number of the receiver for the carrying communicator |
| TagRouting.MessageNamesOtherEnd | src/impl/send.cpp:105-108 | In every reachable state a message carries the number of the other end, below the reserved ones |
| TagRouting.StepKeepsInvariant | src/impl/connection.cpp:75-85 | Every half-step of the number exchange, and every reservation, opening and closing, keeps the numbers consistent |
| TagRouting.ConnectionIsMade | src/impl/connection.cpp:75-85 | An open connection can be finished from wherever it stands: both ends are then able to send |
| TagRouting.AnyTwoConnect | src/impl/connection.cpp:75-85 | Whatever has happened before, two processes with numbers left can connect, with numbers never given out before |
| TagRouting.EndsShareTheEndpointIff | src/impl/comm.cpp:58-65 | Each end chooses by the hosts and its own LFI_use_shm; the two choices agree if and only if the hosts differ or both processes have the same setting |
| TagRouting.EndUsesShmIff | src/impl/comm.cpp:58-65 | In every reachable state an end uses shared memory if and only if both processes are on one host and its own setting allows it |
| TagRouting.PackRoundTrip | src/impl/send.cpp:108 | Shifting and or-ing gives rank * 2^32 + tag, and the masks take rank and tag out of it again |
| TagRouting.MatchesMeans | src/impl/recv.cpp:98-102 | With no bits ignored words match if and only if rank and tag agree, and with the rank ignored if and only if the tags do |
| Bits.OrIsSum | src/impl/send.cpp:108 | Or-ing numbers whose bits do not overlap is adding them |
| Bits.AndLowBits | include/impl/lfi.hpp:90-93 | Masking with k ones keeps exactly the lower k bits |
| Bits.AndHighBits | include/impl/lfi.hpp:90-93 | Masking above the lower k bits is masking the shifted word |

## Left out

- Every `fi_*` call, endpoint creation and teardown, address vectors and memory registration: the fabric is an oracle.
- `socket.cpp`, `ns.hpp`, the byte-level handshake and the intercepted libc calls other than sending and receiving.
- `test_num`: its second scan counts completed requests again, so its result does not have the documented meaning.
- The scan of `ft_comms` in `one_loop`: it erases communicators that may not be in the list and follows `next` after it.
- Mutexes and condition variables below the step: a locked region is one step, and nothing is claimed about deadlocks of
  the locks. `complete` is one step, although its first check is made before it takes the lock. A posting that fails or
  injects fetches and completes its request in one step: submissions wait for the queue mutex that it holds.
- The mode `LFI_efficient_progress = false`, in which guards elect nobody.
- Callbacks of requests, statistics, profiling, debug output, environment parsing and error strings.
- Waiting for a connection that is being made, and the heartbeat address exchange: in `TagRouting` a communicator is
  ready once it has learnt its number at the other end, and a call that would wait reports that it waits.
- The registration of any-source requests in the endpoint, and the time stamp that a successful completion leaves:
  `FailureReports` starts from the registered requests, `FailureDetection` takes completions as events.
- `lfi_broadcast`: it has the shape of the second half of the all-reduce and would add only easy members.
- Error branches of the collectives (cancelling what was posted when a submission fails) and a failed allocation.
- `Lifecycle`: the buffers, lengths and addresses of operations, and a context pool shared by two endpoints; the model
  has one endpoint with its pool. A failed allocation of a context is not modelled.
- Endpoints.Endpoint.Cancel: other threads post, deliver, complete and cancel while it runs, but submit nothing; with
  submissions of other requests the cancellation is in `Delivery.CancelCompletes`, which excludes only new submissions of
  the cancelled request itself.
- WaitNum.WaitNum: the two progress guards of the call are part of the script; who makes progress is the subject of
  `Leadership`. Elapsed time is the `expired` flag of the script.
  The requests of a call are distinct and in no other wait call at the same time.
- Mesh.Build: connects block until they are accepted; the time limits of connect and accept are not modelled.
- RankAssignment.RanksAreRight: ports other than -1, which is what a listening socket has; see PortMinusOneRepeatsRank.
  Host names are the strings received; their truncation to the length of the message field is not modelled.
- Allreduce.EveryRankAgrees: a signed overflow at the root is undefined behaviour in C++, and such a run stops there.
- ByteStream.BytesAreConserved: one receiving thread, at most 1024 groups and sizes below 2^32 per announcement, no tag
  used by two outstanding messages, no message with the tag of the announcements (which their receive would take), and
  no failing call; `SocketCalls.AnnounceableIff` says exactly when the tags of a send are such.
- SocketCalls.Scatter: the pieces of one read are distinct memory.
- CancelComm.CancelAll: removing queued operations and the fabric's own cancellation are in `Endpoints.Endpoint.Cancel`;
  a registered request is not reset before it completes.
- FailureDetection.DetectedInTime: the durations must fit the 32-bit variables of the code; `WrappedSilenceIsNotProbed`
  shows what happens otherwise.
- FailureReports.EndpointReports.HandleReports: the progress that each cancellation makes is not part of
  this method; `CancelComm.Cancel` and `Endpoints.Endpoint.Cancel` have it.
- TagRouting.DirectedReceive: fewer than 2^32 - 3 communicators are numbered in one process, so that no number means
  "any source"; the addresses that the fabric may also compare are not modelled.
- ProgressGuards.ProgressGuard.Open: the methods run undisturbed; interleavings of their steps are in `Leadership`.
