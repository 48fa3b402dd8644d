# kelcoro, modelled and verified

kelcoro is a C++20 coroutine library. This project models its six small state machines and the allocator
under them, and proves what each of them promises. `dafny verify dfyconfig.toml` checks all of it.

| module | what it models |
|---|---|
| `Scripts`, `Flattening` | coroutine bodies as finite scripts of `co_yield`, `elements_of` and throw, and their meaning: the depth-first flattening into values and errors |
| `Frames`, `Generators`, `Channels` | promises and the splice of `elements_of`, which both share; final suspend and failure, iteration and moves, field by field; every method is proved against the flattening |
| `LockfreeStack`, `Latch`, `LatchLifetime` | the intrusive stack as single atomic steps of any number of threads, and the latch on top of it, which moves the stack by the stack's own steps; when the latch may be destroyed |
| `TaskQueue`, `ThreadPool` | the linked queue and the loops that consume it, on the heap; the shutdown protocol of the pool, as a state machine over lists |
| `WhenAny`, `WhenAll` | the completion protocols of `algorithm.hpp` under every interleaving |
| `Waiters`, `WaitLists`, `Roads`, `Gates` | inline resumption with walks inside walks, as tickets and as linked nodes on the heap; the road and the gate |
| `Regions`, `StackMemory` | `stack_resource`: where its blocks and allocations are, and its pointers, headers and freelist |
| `Alignment`, `FrameMemory` | rounding sizes, and the memory resource behind a coroutine frame |
| `Sums`, `Wrappers` | sums over a sequence; optional values |

How concurrency is read: a step is one atomic operation, or what is done under one mutex, and a run is any
sequence of allowed steps of any number of threads. Statements "over all runs" hold for every state of every
such sequence. A step that would read freed memory or break a precondition of another component has no
successor (`None`), and it is proved that this never happens.

Where code and documentation disagree, the model follows the code:

- `README.md:198` says that `elements_of` yields all elements like a loop, only more effectively. For a range
  that throws it does not: only the leaf ends, and its owner goes on. `Flattening.SpliceDiffersFromLoop` has a
  range for which the two differ, `Flattening.SpliceVersusLoop` the exact condition under which they agree.
- The comment at `include/kelcoro/stack_memory_resource.hpp:183` says that `reuse_memory` works as deallocating
  all allocated chunks. It does so for the chunks from the heap and leaves the initial buffer as it is:
  `StackMemory.StackResource.ReuseMemory` says what stays, `StackMemory.ReuseKeepsTheInitialBuffer` has an
  allocation that is still live afterwards.
- `include/kelcoro/gate.hpp:120-126`: the documented precondition of `reopen` is enough, its assertion is not
  (`Gates.SettledIffNotReopenedTooEarly`, `Gates.AssertionOfReopenIsTooWeak`).
- The comment at `include/kelcoro/latch.hpp:11` allows destroying the latch right after a waiter returned.
  That needs every count_down and arrival to have left it by then, which holds in every run without
  `count_down(0)`. With it, one operation may be overtaken between its subtraction and its close, or may not
  yet have subtracted its zero. `LatchLifetime.WokenTooEarlyIff` and `LatchLifetime.ReturnedTooEarlyIff` say
  exactly for which counts and operations. Waiters that are still on their way into the latch are not
  arrivals and are left to the caller.

## Model

| member | source | states |
|---|---|---|
| Flattening.FlatInContext | include/kelcoro/generator.hpp:251-253 | what a body contributes inside any nest of owners, each of which may have been partly iterated before it was spliced in, is exactly its own flattening, placed between what comes before and after it |
| Flattening.YieldShowsItsValue | include/kelcoro/generator.hpp:106-111 | a `co_yield` at any depth of such a nest shows its value, between all that stands before it and all that stands behind it |
| Flattening.ContainerShowsItsElements | include/kelcoro/noexport/generators_common.hpp:94-125 | of a range over a container the owner shows the elements in order, those that were not taken from it before, and goes on |
| Scripts.TakenAndLeft | include/kelcoro/noexport/generators_common.hpp:74-83 | what was pulled from a range before and what it contributes when it is spliced in are together the events of its body, each once and in order |
| Flattening.ThrowLosesOnlyItsFrame | include/kelcoro/generator.hpp:251-254 | a throw at any depth of such a nest loses what its own frame had left, and nothing else: the owner continues behind the `elements_of` |
| Flattening.SpliceVersusLoop | README.md:198 | `elements_of` and the loop it is said to replace agree if and only if the range never throws, or throws as the very last event with nothing behind it in the owner |
| Flattening.SpliceDiffersFromLoop | README.md:198 | one range that throws, for which the two differ |
| Frames.Promise.SkipThisLeaf | include/kelcoro/generator.hpp:87-93 | the owner learns the root, and the root makes it the active frame; nothing else changes |
| Generators.FinalSuspend | include/kelcoro/generator.hpp:117-133 | a leaf hands over to its owner; the root clears the result and stops |
| Generators.UnhandledException | include/kelcoro/generator.hpp:140-154 | a failing leaf is skipped like a finished one, and the consumer sees the end of the iteration |
| Frames.AttachLeaf | include/kelcoro/noexport/generators_common.hpp:74-83 | the splice: only the deepest active frame of the leaf learns the new root, the leaf learns its owner, and the root its new active frame |
| Frames.OwnersLeadToRoot | include/kelcoro/generator.hpp:66-78 | in every state between two calls the owner links lead from the active frame through the whole chain to the root |
| Generators.Generator.ActiveFrameFindsConsumer | include/kelcoro/generator.hpp:66-83 | in every such state the active frame has the right root although other frames may not, the owners lead to it without a cycle, and it knows its consumer |
| Frames.Apart | include/kelcoro/noexport/generators_common.hpp:74-83 | generators with different roots share no frame, so splicing one into the other closes no cycle |
| Frames.Acyclic | include/kelcoro/generator.hpp:66-78 | no frame is twice on the chain of owners |
| Frames.Splice | include/kelcoro/noexport/generators_common.hpp:74-83 | the chain of the leaf, however deep and with whatever stale roots, goes on top of the chain of its owner, and the active frame of the whole knows the root |
| Generators.Generator.AwaitLeaf | include/kelcoro/noexport/generators_common.hpp:70-83 | an empty leaf contributes nothing and does not suspend its owner |
| Generators.Make | include/kelcoro/noexport/generators_common.hpp:113-125 | of a moved-in generator that was advanced n times before, in the middle of a nested chain of its own or not, what is left are the events of its body without the first n, or none if it has fewer |
| Generators.Generator.RunElementsOf | include/kelcoro/noexport/generators_common.hpp:151-154 | yielding all elements of a leaf keeps the flattening of what is left and gets closer to the end |
| Generators.Generator.RunWorker | include/kelcoro/generator.hpp:117-154 | what the active frame does until it suspends is the next event of the flattening, or keeps the flattening |
| Generators.Generator.Resume | include/kelcoro/generator.hpp:204-213 | `++` shows the consumer the next event of the flattening, the end with or without an exception included, and terminates |
| Generators.Generator.Begin | include/kelcoro/generator.hpp:345-350 | `begin` on an empty generator shows the end, otherwise the next event, also after an exception |
| Generators.Generator.Swap | include/kelcoro/generator.hpp:297-304 | moving exchanges what both generators have left, and both stay usable, in the middle of an iteration too; a generator may be swapped with itself |
| Generators.ForEach | include/kelcoro/generator.hpp:183-213 | a range-for collects the values up to the end or the first exception, and leaves the rest for a later loop |
| Generators.Exhaust | include/kelcoro/generator.hpp:251-253 | loops that catch what they get and begin again see all remaining events, in order |
| Generators.Flatten | include/kelcoro/generator.hpp:246-253 | for every finite tree of bodies the events seen are exactly its depth-first flattening |
| Channels.FinalSuspend | include/kelcoro/channel.hpp:96-113 | a leaf hands over to its owner; the root clears the result and resumes the consumer |
| Channels.UnhandledException | include/kelcoro/channel.hpp:120-133 | a second exception before the first was taken terminates; otherwise the failing frame is skipped, stores the exception and poses as a root so that its final suspend resumes the consumer |
| Channels.ThrowOut | include/kelcoro/channel.hpp:96-133 | the two steps of a throw together: the consumer is resumed with no value and the exception pending |
| Frames.ActiveFrameFindsRoot | include/kelcoro/channel.hpp:21-47 | in every state between two calls the active frame has the right root and the owners lead to it without a cycle |
| Channels.Channel.Fail | include/kelcoro/channel.hpp:120-133 | after a throw at any depth the chain without the failed frame is intact |
| Channels.Channel.RunElementsOf | include/kelcoro/channel.hpp:87-90 | yielding all elements of a leaf keeps the flattening of what is left |
| Channels.Channel.RunWorker | include/kelcoro/channel.hpp:65-133 | what the active frame does until it suspends is the next event of the flattening, or keeps it |
| Channels.Channel.Increment | include/kelcoro/channel.hpp:174-177 | `++` resumes the consumer with the next event of the flattening; a throw while an exception is pending terminates the program, and nothing else does |
| Channels.Channel.Next | include/kelcoro/channel.hpp:312-329 | `next` binds the consumer and shows it the next event; on an empty channel nothing happens |
| Channels.Channel.Pull | include/kelcoro/channel.hpp:288-329 | a consumer that takes the exception after each step leaves all events but the first |
| Channels.Channel.Swap | include/kelcoro/channel.hpp:243-248 | moving exchanges what both channels have left, without binding them to their new consumers; a channel may be swapped with itself |
| Channels.Make | include/kelcoro/noexport/generators_common.hpp:113-125 | the same for a channel that was advanced n times by a consumer that takes its exceptions |
| Channels.ForEach | include/kelcoro/channel.hpp:180-191 | `co_foreach` collects the values up to the end or the first exception, which is taken and rethrown when the loop is left; an exception that was pending before is rethrown at the end, and a second one terminates the program |
| Channels.Exhaust | include/kelcoro/channel.hpp:126-128 | loops that catch what they get and begin again see all remaining events, in order |
| Channels.Flatten | include/kelcoro/channel.hpp:120-133 | the event trace of a channel is that of a generator: the depth-first flattening of the tree |
| Alignment.AlignUpIsLeast | include/kelcoro/memory_support.hpp:173-191 | size plus padding is the least multiple of the alignment not below the size |
| Alignment.MaskRoundsUp | include/kelcoro/memory_support.hpp:184-187 | for every power of two and every word width the mask form is the rounded size modulo the word, so it is the rounded size if and only if that fits |
| FrameMemory.ResourceIsBehindTheFrame | include/kelcoro/memory_support.hpp:200-247 | the stored resource is between the end of the frame and the end of the block, and it is aligned, as asserted in operator delete, if and only if the block is |
| FrameMemory.FrameHeap.New | include/kelcoro/memory_support.hpp:200-228 | a new frame gets the frame size alone for an empty resource, otherwise the rounded size and the resource, which is stored behind it; no other frame loses its resource |
| FrameMemory.FrameHeap.Delete | include/kelcoro/memory_support.hpp:229-247 | in any order of deletions, the resource found is the one the frame was allocated with, and the byte count passed back is the allocated one |
| Regions.LiveIsSafe | include/kelcoro/stack_memory_resource.hpp:147-167 | every live allocation is aligned and inside the used part of its region, and clear of the header of every chunk, taken or free |
| Regions.LiveDisjoint | include/kelcoro/stack_memory_resource.hpp:147-167 | any two live allocations, zero-length ones included, are disjoint |
| Regions.NoFalseMatch | include/kelcoro/stack_memory_resource.hpp:176-179 | an allocation of an older chunk or the initial buffer, of length zero too, never ends at the bump pointer of an empty youngest chunk |
| Regions.StopsAtItsRegion | include/kelcoro/stack_memory_resource.hpp:176-180 | for the youngest live allocation the question of the loop of deallocate is answered yes exactly at the first region that holds anything live, and there it is the last one |
| Regions.Taken | include/kelcoro/stack_memory_resource.hpp:154-158 | taking any chunk of the freelist keeps all blocks apart, and each in one list |
| Regions.Grown | include/kelcoro/stack_memory_resource.hpp:159-165 | a new chunk from the heap keeps all blocks apart |
| Regions.Unbumped | include/kelcoro/stack_memory_resource.hpp:180 | giving back the last allocation leaves the live ones before it |
| StackMemory.StackResource.constructor | include/kelcoro/stack_memory_resource.hpp:112-125 | the span is what the caller gave from its first aligned address on, or none if it ends before that; nothing is live and there is no chunk |
| StackMemory.StackResource.DropCurChunk | include/kelcoro/stack_memory_resource.hpp:97-106 | dropping a chunk undoes the exchange made when it was taken: b, m and e are those of the chunk before, the header holds the chunk itself, and the chunk is first in the freelist |
| StackMemory.StackResource.TakeAtLeast | include/kelcoro/stack_memory_resource.hpp:47-64 | the first chunk of the freelist that is large enough is unlinked, the others keep their order |
| StackMemory.StackResource.FromFreelist | include/kelcoro/stack_memory_resource.hpp:154-158 | an allocation at the start of the first free chunk that is large enough, which goes on top of the chunks in use with the older b, m and e in its header; nothing when none is large enough |
| StackMemory.StackResource.FromHeap | include/kelcoro/stack_memory_resource.hpp:159-165 | an allocation behind the header of a new chunk of twice the request, the current chunk and the initial buffer together |
| StackMemory.StackResource.Allocate | include/kelcoro/stack_memory_resource.hpp:147-167 | one aligned allocation more, at the bump pointer if there is room, else in the first free chunk that is large enough, else in a new chunk; nothing else that is live changes, and only a failing heap makes it fail |
| StackMemory.StackResource.Deallocate | include/kelcoro/stack_memory_resource.hpp:169-181 | last in, first out: the loop ends, drops only chunks in which nothing is live, however many there are, and leaves the live allocations before minus the last; every block is kept |
| StackMemory.StackResource.ReuseMemory | include/kelcoro/stack_memory_resource.hpp:183-189 | all heap chunks go to the freelist; what was allocated in the initial buffer stays live, and its bump pointer stays |
| StackMemory.ReuseKeepsTheInitialBuffer | include/kelcoro/stack_memory_resource.hpp:183-189 | one resource with an allocation that is still live afterwards |
| StackMemory.StackResource.Destroy | include/kelcoro/stack_memory_resource.hpp:142-145 | the destructor frees the address of each block taken from the heap exactly once |
| StackMemory.StackResource.TakeOver | include/kelcoro/stack_memory_resource.hpp:127-132 | moving hands over all pointers, blocks and live allocations and leaves an empty resource |
| StackMemory.StackResource.Assign | include/kelcoro/stack_memory_resource.hpp:134-140 | move assignment frees what the target had, each block once, and then takes over; assigning to itself changes nothing |
| LockfreeStack.Prepend | include/kelcoro/nonowner_lockfree_stack.hpp:68-77 | a chain whose last node points to the observed top, put in front, is linked to the whole stack |
| LockfreeStack.ConsKeepsInv | include/kelcoro/nonowner_lockfree_stack.hpp:36-38 | a successful exchange conses the chain to what the stack holds at that moment, even if the observed top was popped and pushed again in between |
| LockfreeStack.ObserveKeepsInv | include/kelcoro/nonowner_lockfree_stack.hpp:35-38 | a load or a failed exchange writes the observed top into the pusher's own last node and disturbs nobody |
| LockfreeStack.WalkKeepsInv | include/kelcoro/nonowner_lockfree_stack.hpp:71-74 | the walk of push_stack ends at the last node of the chain |
| LockfreeStack.StepKeepsInv | include/kelcoro/nonowner_lockfree_stack.hpp:32-77 | every atomic step of every operation keeps the pointers equal to the abstract list, and every node in exactly one place |
| LockfreeStack.PoppedChainIsAStack | include/kelcoro/nonowner_lockfree_stack.hpp:43-45 | what try_pop_all returns is the abstract list, and meets what push_stack asks of its caller |
| LockfreeStack.RunKeepsInv | include/kelcoro/nonowner_lockfree_stack.hpp:32-77 | the same over all runs of any number of threads, spurious failures of the exchange included |
| LockfreeStack.EachPushIsPoppedOnce | include/kelcoro/nonowner_lockfree_stack.hpp:32-62 | over all runs the successful pushes of a node and its returns by try_pop_all or close balance, but for one if it is on the stack |
| LockfreeStack.ClosedForever | include/kelcoro/nonowner_lockfree_stack.hpp:58-66 | a stack that was closed stays closed and empty |
| LockfreeStack.PushBegins | include/kelcoro/nonowner_lockfree_stack.hpp:32-77 | a push, try_push or push_stack begins with its nodes in the hands of its thread, which is busy from then on |
| LockfreeStack.PushEndsOnStack | include/kelcoro/nonowner_lockfree_stack.hpp:32-77 | over all runs, when that thread is idle again its whole chain is in front of what the stack held then; only a try_push may instead have been refused, and then the stack was closed meanwhile and the thread still has its node |
| LockfreeStack.AloneItFinishes | include/kelcoro/nonowner_lockfree_stack.hpp:35-38 | no operation goes on for ever when it runs alone and no exchange fails for no reason: there is a bound on its steps |
| Latch.StepIsSafe | include/kelcoro/latch.hpp:35-54 | the unchecked push of `arrive_and_wait(n)` never meets the closed marker, and no operation uses an awaiter whose coroutine has gone on |
| Latch.PushedAwaiterIsAlive | include/kelcoro/latch.hpp:25-29 | a node that its operation is still pushing was handed to the executor by nobody |
| Latch.ArrivingAwaiterIsAlive | include/kelcoro/latch.hpp:48-49 | while an arrival is still to be subtracted, nobody was woken, so the awaiter that `count_down(n)` is called from is there |
| Latch.NextToAttachIsAlive | include/kelcoro/executor_interface.hpp:78-84 | the node that attach_list reads next was not yet handed over, by this or any other operation |
| Latch.ArriveKeepsInv | include/kelcoro/latch.hpp:71-77 | the counter stays above what the arrivals still owe, and at most one operation that subtracts something brings it to zero |
| Latch.CounterIsWhatIsLeft | include/kelcoro/latch.hpp:71-77 | over all runs the counter is the initial count less the n of every `count_down(n)` and `arrive_and_wait(n)` that has subtracted |
| Latch.StepKeepsInv | include/kelcoro/latch.hpp:18-108 | every atomic step of wait, arrive_and_wait and count_down keeps the invariant |
| Latch.NoOperationBreaksTheStack | include/kelcoro/latch.hpp:35-54 | the same over all runs, `count_down(0)` included: every unfinished operation can make its next step |
| Latch.ClosedIffZero | include/kelcoro/latch.hpp:71-83 | over all runs a closed latch has counter zero; one at zero that is open has an operation between its subtraction and its close |
| Latch.NobodyWakesEarly | include/kelcoro/latch.hpp:18-54 | over all runs no waiter goes to the executor or continues without suspending before the counter is zero |
| Latch.EachWaiterWakesOnce | include/kelcoro/latch.hpp:103-107 | when all operations are done, each waiter was refused and continued, or went to the executor exactly once; with the counter above zero it is still on the stack, once |
| Latch.AllArrivedAllWoken | include/kelcoro/latch.hpp:71-77 | when the operations were called with the initial count in all and are done, the counter is zero and every waiter was refused and continued, or went to the executor exactly once |
| Latch.AttachedMeansGone | include/kelcoro/latch.hpp:103-107 | over all runs an awaiter is taken as gone as soon as its node went to the executor, and only then |
| Latch.AloneItFinishes | include/kelcoro/latch.hpp:18-108 | every operation comes to its end when it runs alone: at most one step for each waiter it finds or hands over, and eight others |
| Latch.AttachedWaiterHasLeft | include/kelcoro/latch.hpp:103-107 | a waiter that went to the executor has itself left the latch, unless `count_down(0)` handed it over while its own operation had not closed yet |
| LatchLifetime.WokenTooEarlyIff | include/kelcoro/latch.hpp:71-77 | for every count and every collection of operations: some interleaving wakes a waiter while an operation still has to close the latch if and only if the count is not zero, the operations can count to zero, and they contain a waiter and a `count_down(0)` |
| LatchLifetime.ReturnedTooEarlyIff | include/kelcoro/latch.hpp:9-11 | the same for a waiter that returned in any way, woken or refused, while some arrival has yet to subtract or to close: possible if and only if the operations can count to zero and contain a waiter and a `count_down(0)`; so never without `count_down(0)` |
| LatchLifetime.RunClosedByTheLast | include/kelcoro/latch.hpp:71-77 | without `count_down(0)`, over all runs, nobody has yet to close a latch that is closed |
| TaskQueue.Queue.PushList | include/kelcoro/thread_pool.hpp:56-70 | the list is appended to the queue; the consumer is notified exactly when the queue was empty; the stale last pointer of an empty queue is not used |
| TaskQueue.Queue.Push | include/kelcoro/thread_pool.hpp:50-53 | one node is appended |
| TaskQueue.Queue.PushWalk | include/kelcoro/thread_pool.hpp:72-79 | a list whose end has to be found is appended; an empty one changes nothing and notifies nobody |
| TaskQueue.Queue.PopAll | include/kelcoro/thread_pool.hpp:81-88 | the whole list is returned in order and the queue is empty; the same code serves the waiters of roads and gates |
| TaskQueue.CancelTasks | include/kelcoro/thread_pool.hpp:18-30 | each task of the list is resumed once, in order and as cancelled, pills are passed over, though every node becomes invalid when it is resumed |
| TaskQueue.TasksInOrder | include/kelcoro/thread_pool.hpp:18-30 | the order of these resumptions is that of the list: the n-th task in it is the n-th resumed |
| TaskQueue.TasksOnce | include/kelcoro/thread_pool.hpp:18-30 | exactly the nodes of the list that are no pill are among them, none twice |
| TaskQueue.RunBatch | include/kelcoro/thread_pool.hpp:402-411 | the tasks before the first pill are resumed once and in order with the status they have, and the list behind the pill is left |
| ThreadPool.PillThenRequest | include/kelcoro/thread_pool.hpp:118-137 | the pill of a request to stop is directly in front of the request |
| ThreadPool.PillOfHeadIsGone | include/kelcoro/thread_pool.hpp:118-137 | when a request to stop is resumed, which frees its pill, the pill is linked nowhere |
| ThreadPool.StepIsSafe | include/kelcoro/thread_pool.hpp:277-416 | no push, worker, join or drain reads or writes a dead node or links a linked one |
| ThreadPool.StepKeepsInv | include/kelcoro/thread_pool.hpp:277-416 | every step keeps the accounting of all queues |
| ThreadPool.NoDeadNodeIsTouched | include/kelcoro/thread_pool.hpp:277-416 | the same over all runs: pushes, any number of request_stop, wait_stop and the destructor, interleaved with the workers |
| ThreadPool.PushedIsRequested | include/kelcoro/thread_pool.hpp:50-70 | over all runs what was ever linked into a queue is what the moves asked for, in their order: a task for each push, a pill and the request for each request to stop, the shared pill for each join |
| ThreadPool.TaskIsResumedInItsTurn | include/kelcoro/thread_pool.hpp:396-416 | over all runs the n-th task handed to a queue is the n-th that it resumes, as cancelled if and only if the queue was asked to stop before, and every one of them was resumed when the pool is gone |
| ThreadPool.TaskIsResumedOnce | include/kelcoro/thread_pool.hpp:396-416 | over all runs the task of a push is resumed in no other turn and by no other queue |
| ThreadPool.EachTaskIsResumedOnceInOrder | include/kelcoro/thread_pool.hpp:396-416 | over all runs each queue has resumed what was linked into it, in order, up to some point, and all of it when the pool is gone |
| ThreadPool.ResumedMeans | include/kelcoro/thread_pool.hpp:396-416 | spelled out: the n-th task pushed is the n-th resumed, once, as cancelled if and only if a pill was pushed before it |
| ThreadPool.StopRequestsAreCancelled | include/kelcoro/thread_pool.hpp:134-136 | every request to stop is resumed as cancelled, as it asserts |
| ThreadPool.SharedPillIsLinkedOnce | include/kelcoro/thread_pool.hpp:281-290 | the destructor's pill is linked in at most one place, in the queue that it is joining or draining |
| ThreadPool.NoWakeupIsLost | include/kelcoro/thread_pool.hpp:56-102 | a worker asleep without a pending notification has an empty queue |
| ThreadPool.LinkedNodesAreAlive | include/kelcoro/thread_pool.hpp:277-416 | over all runs no node that is linked or in the hands of a worker was resumed before, or is the pill of a request that was, and none is linked twice |
| ThreadPool.WorkerAdvances | include/kelcoro/thread_pool.hpp:396-416 | a worker that owes something is never stuck, and every step of it brings it closer to having resumed it |
| ThreadPool.JoinedWorkerExits | include/kelcoro/thread_pool.hpp:285-286 | a worker that the destructor joins owes at least the shared pill, has read a pill, or has exited |
| ThreadPool.CloserComesToItsEnd | include/kelcoro/thread_pool.hpp:277-293 | whenever wait_stop or the destructor can go on, it comes nearer to its end; it cannot only while the worker that it joins has a step to make |
| ThreadPool.DestructorEndsWithThePool | include/kelcoro/thread_pool.hpp:277-293 | once it has begun, the destructor is at work until the pool is gone, and nothing else is its end |
| ThreadPool.GoneMeansJoined | include/kelcoro/thread_pool.hpp:277-293 | when the pool is gone, all threads were joined and all queues are empty |
| ThreadPool.WaitStopResumesAll | include/kelcoro/thread_pool.hpp:353-359 | when wait_stop returns the workers have exited, and every task that was handed to a queue before it was called was resumed in its turn |
| WhenAny.WhenAnyState.SetException | include/kelcoro/algorithm.hpp:113-122 | the exception is put in, with its index, unless a value is in; exactly the last of all children to report gets the owner |
| WhenAny.WhenAnyState.SetResult | include/kelcoro/algorithm.hpp:125-137 | the first value is put in and its caller gets the owner, nobody later puts anything in, and a value whose move throws counts as an exception; the state always holds the last outcome put in |
| WhenAny.NextKeepsInv | include/kelcoro/algorithm.hpp:100-163 | every step of every child, the window after a throwing move included, keeps the invariant |
| WhenAny.OwnerIsResumedOnce | include/kelcoro/algorithm.hpp:141-163 | over all runs only the owner is resumed, at most once, and exactly once when all children are done |
| WhenAny.AnswerIsFirstValueOrLastError | include/kelcoro/algorithm.hpp:246-267 | the answer is the first value put in, with its child's index, or, if all failed, the last exception put in; both are what that child ended with |
| WhenAny.RunEndsWithTheAnswer | include/kelcoro/algorithm.hpp:141-163 | no run is longer than five steps for each child and one for the owner, and one that nobody can continue has an answer |
| WhenAll.StepIsSafe | include/kelcoro/algorithm.hpp:189-202 | while the loop has a child to start, or a child uses its slot or the counter, the owner has not been resumed |
| WhenAll.FrameIsAlive | include/kelcoro/algorithm.hpp:20-34 | over all runs nobody uses the frame of the owner after it returned |
| WhenAll.OwnerIsResumedOnce | include/kelcoro/algorithm.hpp:20-34 | over all runs the owner is resumed at most once, when every slot is written, and exactly once when all are done |
| WhenAll.ResultsAreTheOutcomes | include/kelcoro/algorithm.hpp:188-202 | slot i of the result is the outcome of child i, for all i; no children give an empty result |
| WhenAll.RunEndsWithTheResults | include/kelcoro/algorithm.hpp:20-34 | no run is longer than four steps for each child and two for the owner, and in one that nobody can continue the owner has returned |
| Waiters.PopAllKeepsFifo | include/kelcoro/road.hpp:63-65 | popping keeps the order of parking if and only if nobody waits both in the queue and in a popped list |
| Waiters.FifoMeans | include/kelcoro/road.hpp:36-65 | in that order the k-th resumed is the k-th parked, for all k |
| WaitLists.WaitList.Enqueue | include/kelcoro/road.hpp:36-52 | on the heap: a node that is in no list, such as one just resumed by a walk that goes on, is linked behind the waiters, and no walk is disturbed |
| WaitLists.WaitList.Pop | include/kelcoro/road.hpp:63-65 | the whole list becomes a walk inside the walks that are going on, apart from all of them and from the list |
| WaitLists.WaitList.Take | include/kelcoro/executor_interface.hpp:78-84 | a walk takes the node that parked with the ticket due next and saves the pointer behind it |
| WaitLists.WaitList.ResumeOne | include/kelcoro/executor_interface.hpp:78-84 | the node is resumed once, and whatever it then holds, the saved pointers still lead through exactly those who wait |
| Roads.Road.WaitOpen | include/kelcoro/road.hpp:100-118 | continues at an open road, and is linked into the heap list of a closed one |
| Roads.Road.Open | include/kelcoro/road.hpp:95-98 | opens, and begins the walk over all nodes in the list |
| Roads.Road.ResumeOne | include/kelcoro/road.hpp:114-117 | the node of the ticket due next is resumed, and gets the answer whether the road is open at that moment |
| Roads.StateIsWhatTheMovesSay | include/kelcoro/road.hpp:83-118 | over all runs the road is closed if and only if a `close` came after the last `open`; those who waited at a closed road are the parkings, each opening begins a walk, and each turn of a walk resumes one |
| Roads.AnswerIsTheRoad | include/kelcoro/road.hpp:114-125 | over all runs `co_await wait_open()` returns true to a resumed waiter if and only if no `close` came after the last `open` until then |
| Roads.Road.ResumeAndWaitAgain | include/kelcoro/road.hpp:120-125 | a resumed waiter that waits again with the same node, while the walk goes on, is linked behind those in the list, and the walk goes on with those it still had |
| Roads.RunKeepsInv | include/kelcoro/road.hpp:83-118 | over all runs, nested walks included, every parking is resumed or waits, once |
| Roads.EveryoneIsResumedOnce | include/kelcoro/road.hpp:94-98 | when no `close` came after the last `open` and every walk has ended, everyone who waited at a closed road was resumed once per parking |
| Roads.WalkResumesEarlierParkings | include/kelcoro/road.hpp:120-125 | each walk resumes in parking order, and never one who parked after it began: who parks again is not resumed from that list |
| Roads.FifoIffNoOvertaking | include/kelcoro/road.hpp:94-98 | across nested walks the order is that of parking if and only if the road is never opened while some wait in the queue and others are popped but not resumed |
| Roads.OvertakingHappens | include/kelcoro/road.hpp:120-125 | a run in which a later waiter overtakes an earlier one |
| Gates.Gate.CloseGate | include/kelcoro/gate.hpp:90-114 | closes at once, and is linked into the heap list if somebody is inside |
| Gates.Gate.Exit | include/kelcoro/gate.hpp:46-51 | the last to leave a closed gate begins the walk over all nodes in the list |
| Gates.Gate.ReopenGate | include/kelcoro/gate.hpp:122-126 | the assertion on the first pointer says that the list is empty, and nothing about those who were popped |
| Gates.StateIsWhatTheMovesSay | include/kelcoro/gate.hpp:28-51 | over all runs the gate is closed if and only if a `close` came after the last `reopen`, and the count is the number of entries made while it was open minus the number of leaves; closing with somebody inside parks, and the last leave of a closed gate begins a walk |
| Gates.SeenIsTheGate | include/kelcoro/gate.hpp:107-114 | over all runs that is the state of the gate that each resumed waiter found |
| Gates.EveryoneIsResumedOnce | include/kelcoro/gate.hpp:46-51 | with nobody inside and every walk ended, everyone who closed the gate with somebody inside was resumed once per parking |
| Gates.SettledIffNotReopenedTooEarly | include/kelcoro/gate.hpp:120-126 | the gate stays closed and empty for all who are about to be resumed if and only if it is never reopened while somebody popped is not yet resumed |
| Gates.WaitersFindTheGateClosed | include/kelcoro/gate.hpp:107-114 | then every waiter finds it closed with nobody inside, and they are resumed in the order of parking |
| Gates.ResumedWhenEveryoneLeft | include/kelcoro/gate.hpp:107-114 | and every successful entry was left when one is resumed |
| Gates.AssertionOfReopenIsTooWeak | include/kelcoro/gate.hpp:122-126 | the assertion in reopen, which looks at the queue only, does not suffice |

## Left out

- Coroutine lowering, symmetric transfer and the exception mechanism: a frame is the rest of its script and its fields, a transfer of control is a loop.
- Infinite bodies: scripts are finite, so iteration is proved to terminate.
- Weak memory orderings: every atomic operation is sequentially consistent.
- The mode of generators that yield nothing, by-reference writes into a generator, output iterators, and `reset`, `release` and `clear`: frames are not destroyed.
- Generators.Generator.Swap: iterating by an old iterator across a swap is not modelled; a loop begins again after a move.
- Channels.Channel.Swap: `++` across a swap is not modelled, because a swap does not rebind the consumer; `begin` or `next` comes first.
- Arbitrary ranges in `elements_of`: only generators and channels; a range wrapped by `to_generator` is a script without frames inside.
- StackMemory.StackResource.Allocate: does not model the wrap-around of byte counts near the end of the address space; the heap is a parameter that gives a fresh aligned address or fails.
- FrameMemory.FrameHeap.New: the choice of the resource by the last argument is compile-time; the address is a parameter.
- ThreadPool.TaskIsResumedInItsTurn: pushes stop at the final drain of a queue, which is the library's contract that a cancelled task schedules nothing and that nobody uses a pool being destroyed.
- ThreadPool.WorkerAdvances: says that the worker needs finitely many steps if nothing more is pushed; that threads are scheduled fairly is not modelled.
- The hash that selects a queue is any function: a push names its queue. A constructor that fails to start its threads, `strand` and the lone `worker` repeat the same steps.
- Latch.ArriveKeepsInv: the range of `ptrdiff_t` is not modelled; the counter never grows.
- WhenAny.WhenAnyState.SetResult: one child after the other, with nobody between a throwing move and its report, which is in the protocol below it; and it is the form with a run-time index; the form over a tuple of types differs in types only.
- Moving a road's or a gate's list, and executors other than the inline one: those only append to another queue.
- `task`, `job`, `async_task`, `logical_thread`, `chain`, `with`, `avalue`, events and `fixed_array`: they would add only easy members, or repeat the counter argument of `WhenAll`.
