# The Seastar core in Dafny

This project models the core of Seastar 18.08 (`rpc/seastar/seastar-18.08-branch/core`) and
proves what its parts are for. Code that updates state in place is a class whose methods are proved against
functions of the old state; concurrent protocols are state machines over their steps. Integers are
unbounded in Dafny, so machine words are written out where wrap-around matters.

| files | component | main results |
|---|---|---|
| Bits, PageList, Buddy, CpuPages | page (buddy) allocator | allocation fails exactly when no aligned free block exists; the one page that is inspected before a merge always tells the truth, although interior pages keep stale flags; freeing what was allocated restores the very same division of memory |
| SizeClasses, SmallPool | small-object pools | the class chosen is the least that fits; every object is in one place; a span is given back as soon as, and only when, none of its objects is in use or kept for use |
| Allocator | the allocator as a whole | 57 pools and large allocations share one page array; whatever is allocated, freed or shrunk, nothing in use overlaps and no one else's memory is touched |
| Scheduler | CPU scheduler | fairness window, bounded wait, no overtaking of equals, no task lost, and CPU time in the ratio of the shares over all runs |
| AppendFile | files whose size changes are serialised | size changes run alone, writes in flight stay inside the file, the size is what the operations made it, no deadlock |
| Wakeup | sleep and wakeup across cores, with store buffers | no lost wakeup, and the barrier is needed for it; no lost message |
| Future | promises and futures | the pointer structure refines a table of channels; a value that is set is, through any chain of forwards, in exactly one place, until it is delivered, reported or dropped, once |
| Align, DmaRead, FileStream | file input streams | a stream delivers exactly the range of the file, through alignment, short reads and read-ahead |
| OutputStream | output streams | the sink gets exactly the bytes written, and never two puts at a time; which of them it has flushed |
| FairQueue, FairService | I/O fair queue | renormalising the accumulators never changes what is dispatched; classes with requests are served in the ratio of their shares |
| DeleterGraph, Deleter | deleters | reference counts are right, chains stay acyclic, every action runs once; append stops exactly when it would make a cycle |
| Rings, CircularBuffer, ChunkedFifo | queues | both refine sequences, with indices that wrap around at any time |
| Prometheus | merge of the metrics of all shards | each family of the union once, in order, with all its metrics |

`Sequences` and `Options` hold shared notions.

## Model

All paths are below `rpc/seastar/seastar-18.08-branch/core/`, which is spelled out in each row.

| member | source | states |
|---|---|---|
| PageLists.PageList.Erase | rpc/seastar/seastar-18.08-branch/core/memory.cc:235-246 | the list without that page; links of no other page change |
| PageLists.PageList.PushFront | rpc/seastar/seastar-18.08-branch/core/memory.cc:247-257 | the page in front of the list |
| PageLists.PageList.PopFront | rpc/seastar/seastar-18.08-branch/core/memory.cc:258-265 | the list without its first page |
| PageAllocator.IndexOfIsCeilLog2 | rpc/seastar/seastar-18.08-branch/core/memory.cc:459-466 | index_of(n) is the least k with n <= 2^k |
| Buddy.FreeBlockInSpan | rpc/seastar/seastar-18.08-branch/core/memory.cc:489-513 | an aligned block that is entirely free lies in one free span, because no two equal buddies are both free |
| Buddy.CanonicalUnique | rpc/seastar/seastar-18.08-branch/core/memory.cc:489-513 | which pages are free determines the free spans |
| Buddy.HeapDetermined | rpc/seastar/seastar-18.08-branch/core/memory.cc:478-545 | free pages and held spans together determine the whole division of memory |
| PageAllocator.InspectionIsExact | rpc/seastar/seastar-18.08-branch/core/memory.cc:497 | the one page looked at is free and has the size if and only if the buddy is a free span of that size, whatever stale flags inner pages carry |
| PageAllocator.BuddyPageIsInspected | rpc/seastar/seastar-18.08-branch/core/memory.cc:490-496 | the bit arithmetic finds the first page of an upper and the last page of a lower buddy |
| PageAllocator.FreeSpansAreMaximalBlocks | rpc/seastar/seastar-18.08-branch/core/memory.cc:507-513 | a block is a free span if and only if it is entirely free and the block of twice its size is not |
| PageAllocator.AllocateFreeRoundTrip | rpc/seastar/seastar-18.08-branch/core/memory.cc:571-604 | allocating and freeing leaves exactly the spans that were there, however much was split and merged |
| PageAllocator.EmptyListsMeanNoBlock | rpc/seastar/seastar-18.08-branch/core/memory.cc:533-541 | if the lists from index_of(n) on are empty, memory has no aligned free block that large |
| PageAllocator.NoBlockAsLargeAsMemory | rpc/seastar/seastar-18.08-branch/core/memory.cc:575-577 | a request as large as memory cannot be met, so refusing it early is right |
| PageAllocator.CpuPages.constructor | rpc/seastar/seastar-18.08-branch/core/memory.cc:873-884 | all invariants; everything above the reserved pages is free |
| PageAllocator.CpuPages.Unlink | rpc/seastar/seastar-18.08-branch/core/memory.cc:468-471 | the span leaves its list and the free spans |
| PageAllocator.CpuPages.Link | rpc/seastar/seastar-18.08-branch/core/memory.cc:473-476 | the span is on its list and free |
| PageAllocator.CpuPages.FreeSpanNoMerge | rpc/seastar/seastar-18.08-branch/core/memory.cc:478-487 | the block is a free span at the front of its list, all invariants hold, and only free pages changed |
| PageAllocator.CpuPages.GrowSpan | rpc/seastar/seastar-18.08-branch/core/memory.cc:489-505 | it merges if and only if the buddy is a free span of that size; the result is the parent block |
| PageAllocator.CpuPages.FreeSpan | rpc/seastar/seastar-18.08-branch/core/memory.cc:507-513 | the pages are free, held spans are untouched, no two equal buddies are free |
| PageAllocator.CpuPages.FreeSpanUnaligned | rpc/seastar/seastar-18.08-branch/core/memory.cc:515-525 | a range is freed piece by piece with all invariants, also behind a shrunk span, where stale flags lie |
| PageAllocator.CpuPages.FindAndUnlinkSpan | rpc/seastar/seastar-18.08-branch/core/memory.cc:527-546 | the free span taken is of the least order that is at least index_of(n), and the one at the front of its list; null means that no list from index_of(n) on has one |
| PageAllocator.CpuPages.AllocateLargeAndTrim | rpc/seastar/seastar-18.08-branch/core/memory.cc:571-604 | it succeeds if and only if some aligned block of 2^index_of(n) pages is entirely free; exactly the first that many pages of the smallest free span that is large enough become a held span |
| PageAllocator.TightestIsBest | rpc/seastar/seastar-18.08-branch/core/memory.cc:533-545 | taking the block from the smallest free span that will do is never worse than taking it from another: every size that could be met then can be met now |
| PageAllocator.LargerBlocksStay | rpc/seastar/seastar-18.08-branch/core/memory.cc:533-545 | every free block larger than the span that is taken is still free after the allocation |
| PageAllocator.CpuPages.FreeLarge | rpc/seastar/seastar-18.08-branch/core/memory.cc:712-723 | exactly the span goes from held to free |
| PageAllocator.CpuPages.CutSpan | rpc/seastar/seastar-18.08-branch/core/memory.cc:841-843 | the span is its first part; the rest is in no span and no free neighbour can merge with its pieces |
| PageAllocator.CpuPages.Shrink | rpc/seastar/seastar-18.08-branch/core/memory.cc:819-846 | the span becomes the least power of two that holds the size, the rest is free, other held spans and their pages are untouched; spans of pools are left alone |
| SizeClasses.SizeClassFits | rpc/seastar/seastar-18.08-branch/core/memory.cc:301-312 | up to 7 * 2^27 the class chosen is the least that holds the size, and wastes less than a quarter of it |
| SizeClasses.SizeClassHoldsIff | rpc/seastar/seastar-18.08-branch/core/memory.cc:308-312 | the class chosen holds the size if and only if the size is at most 7 * 2^27 |
| SizeClasses.ClassesIncrease | rpc/seastar/seastar-18.08-branch/core/memory.cc:299-306 | classes strictly increase from index 8 on |
| SizeClasses.OverflownClass | rpc/seastar/seastar-18.08-branch/core/memory.cc:301-306 | from index 120 on the class value has lost its leading bit |
| SizeClasses.PoolTable | rpc/seastar/seastar-18.08-branch/core/memory.cc:316-335 | there are 57 pools, the last one for 16384 bytes |
| SmallPools.SmallPool.constructor | rpc/seastar/seastar-18.08-branch/core/memory.cc:1060-1078 | the span sizes are the least that hold one object, and the least that hold four with little waste; the thresholds |
| SpanSizes.ChosenSizes | rpc/seastar/seastar-18.08-branch/core/memory.cc:1064-1074 | for pooled sizes, spans have at most 32 pages, and a single one for objects of up to 205 bytes |
| SmallPools.SmallPool.CountersFit | rpc/seastar/seastar-18.08-branch/core/memory.cc:215-219 | so a span has at most 4096 objects and its pages offsets below 32, which their 16 and 8 bits hold |
| SmallPools.SmallPool.Allocate | rpc/seastar/seastar-18.08-branch/core/memory.cc:1088-1100 | an object that was not in use is: the first of the free list, after a refill if that was empty; null only if no list has one and no span is to be had; nothing but free pages and the pool's own spans changed |
| SmallPools.SmallPool.Deallocate | rpc/seastar/seastar-18.08-branch/core/memory.cc:1102-1111 | exactly that object is out of use, in front of the free list; at its maximum the free list is trimmed, and spans that are left without an object in use or on it are free |
| SmallPools.SmallPool.AddMoreObjects | rpc/seastar/seastar-18.08-branch/core/memory.cc:1113-1155 | the free list reaches the goal, by less than a span more, unless the spans' lists are empty and no span is to be had; no new span while an old one has objects |
| SmallPools.SmallPool.CarveSpan | rpc/seastar/seastar-18.08-branch/core/memory.cc:1145-1153 | as many objects as fit are carved, each counted |
| SmallPools.SmallPool.TrimFreeList | rpc/seastar/seastar-18.08-branch/core/memory.cc:1157-1178 | the free list is cut to the goal; objects in use are not touched; a span all of whose objects are trimmed is free afterwards |
| SmallPools.SmallPool.NoIdleSpan | rpc/seastar/seastar-18.08-branch/core/memory.cc:1172-1176 | between calls, every span of a pool has an object that is in use or on the pool's free list |
| SmallPools.SmallPool.GetSpan | rpc/seastar/seastar-18.08-branch/core/memory.cc:1128-1139 | a span of the preferred size if memory has such a block, else one of the fallback size, and none only if there is neither |
| SmallPools.AllListedMeansAll | rpc/seastar/seastar-18.08-branch/core/memory.cc:1172 | a zero counter means that every object of the span is on the span's own list |
| SmallPools.SpanLeaves | rpc/seastar/seastar-18.08-branch/core/memory.cc:1172-1176 | a span that is given back takes no object in use or on the free list with it |
| SmallPools.ObjectInSpan | rpc/seastar/seastar-18.08-branch/core/memory.cc:1147-1153 | an object lies inside the held span it was carved from |
| SmallPools.ObjectsDisjoint | rpc/seastar/seastar-18.08-branch/core/memory.cc:1147-1153 | objects of a pool do not overlap |
| SmallPools.SpanOfObject | rpc/seastar/seastar-18.08-branch/core/memory.cc:1164-1165 | going back from an object's page by its offset finds its span |
| Allocators.Allocator.constructor | rpc/seastar/seastar-18.08-branch/core/memory.cc:319-324 | a pool per size class, nothing in use |
| Allocators.Allocator.Allocate | rpc/seastar/seastar-18.08-branch/core/memory.cc:1188-1251 | a live block of at least the size, from the right pool or whole pages, rounded up; all other pools and large allocations are as before; when it fails |
| Allocators.Allocator.Free | rpc/seastar/seastar-18.08-branch/core/memory.cc:771-786 | exactly the block at that address is out of use, whichever pool it is from |
| Allocators.Allocator.FreeSized | rpc/seastar/seastar-18.08-branch/core/memory.cc:788-807 | the size leads to the pool that allocate took the block from |
| Allocators.Allocator.Shrink | rpc/seastar/seastar-18.08-branch/core/memory.cc:819-846 | a large allocation is cut, a small one stays, everything else is as before |
| Allocators.Allocator.AllocatePages | rpc/seastar/seastar-18.08-branch/core/memory.cc:621-625 | one more large allocation if and only if there is a block; every pool stays right |
| Allocators.Allocator.LiveBlocksDisjoint | rpc/seastar/seastar-18.08-branch/core/memory.cc:1235-1251 | blocks in use never overlap, small or large, whatever pools they are from |
| Allocators.Allocator.CountersNeverWrap | rpc/seastar/seastar-18.08-branch/core/memory.cc:215-219 | no counter or offset of any span of the 57 pools wraps around |
| Allocators.PoolFor | rpc/seastar/seastar-18.08-branch/core/memory.cc:692-696 | the class chosen for a pooled size is that of a pool, and large enough |
| SmallPools.KeptIsElsewhere | rpc/seastar/seastar-18.08-branch/core/memory.cc:1113-1178 | what one pool does to the shared pages leaves the spans of every other pool as they are |
| Scheduler.ChargeBounds | rpc/seastar/seastar-18.08-branch/core/reactor.cc:504-511 | a charge is never negative, even after overflow, and exact below it |
| Scheduler.InsertBehindEquals | rpc/seastar/seastar-18.08-branch/core/reactor.cc:3070-3088 | a queue goes behind its equals, and the order of the others stays |
| Scheduler.StepKeepsInv | rpc/seastar/seastar-18.08-branch/core/reactor.cc:3070-3152 | what every step keeps: the run queue is sorted, and every runnable queue is in the window |
| Scheduler.FairnessWindow | rpc/seastar/seastar-18.08-branch/core/reactor.cc:519-526 | after any run, every runnable queue is at most one charge ahead of _last_vruntime and never behind it |
| Scheduler.PickIsMinimum | rpc/seastar/seastar-18.08-branch/core/reactor.cc:3111-3116 | the queue picked has the least virtual runtime of all runnable ones |
| Scheduler.PicksNeverGoBack | rpc/seastar/seastar-18.08-branch/core/reactor.cc:3116 | picked virtual runtimes never decrease over a run |
| Scheduler.BoundedWait | rpc/seastar/seastar-18.08-branch/core/reactor.cc:3099-3152 | a runnable queue waits for at most the sum of max(0, q.v - r.v + 1) over the others, however they sleep and wake |
| Scheduler.NoOvertaking | rpc/seastar/seastar-18.08-branch/core/reactor.cc:533-537 | a queue that stands behind another is not picked before it |
| Scheduler.GrowthIsCharges | rpc/seastar/seastar-18.08-branch/core/reactor.cc:513-526 | the virtual runtime of a queue that never sleeps grows by exactly what its own turns are charged |
| Scheduler.FairShare | rpc/seastar/seastar-18.08-branch/core/reactor.cc:504-526 | over any run, what two queues that never sleep are charged differs by at most twice the largest charge of a turn |
| Scheduler.ChargesAreTime | rpc/seastar/seastar-18.08-branch/core/reactor.cc:504-511 | charges are CPU time divided by the shares, but for rounding each turn |
| Scheduler.FairTime | rpc/seastar/seastar-18.08-branch/core/reactor.cc:504-526 | the CPU times of two queues that never sleep, divided by their shares, differ by at most two charges and one unit for each turn |
| Scheduler.Reactor.InsertActiveTaskQueue | rpc/seastar/seastar-18.08-branch/core/reactor.cc:3070-3088 | the swapping loop inserts behind the equals |
| Scheduler.Reactor.InsertActivatingTaskQueues | rpc/seastar/seastar-18.08-branch/core/reactor.cc:3090-3097 | all queues that were activated are in their places |
| Scheduler.Reactor.Activate | rpc/seastar/seastar-18.08-branch/core/reactor.cc:3135-3152 | an inactive queue joins, not behind _last_vruntime |
| Scheduler.Reactor.AddTask | rpc/seastar/seastar-18.08-branch/core/reactor.hh:1024-1035 | one more task waits in the queue, and in no other; the queue is activated exactly if it was empty |
| Scheduler.StepBacklog | rpc/seastar/seastar-18.08-branch/core/reactor.hh:1024-1035 | an arrival adds one task to its own queue, a run takes one off the current queue, and nothing else changes a backlog |
| Scheduler.NoTaskIsLost | rpc/seastar/seastar-18.08-branch/core/reactor.cc:2685-2710 | over any run and for each queue, the backlog at the end and the tasks run are the backlog at the start and the tasks that arrived |
| Scheduler.StepVruntime | rpc/seastar/seastar-18.08-branch/core/reactor.cc:3099-3152 | which steps change a virtual runtime, and to what |
| Scheduler.Reactor.RunTasks | rpc/seastar/seastar-18.08-branch/core/reactor.cc:2685-2710 | exactly the steps of the tasks that run and arrive, as a run of the state machine; how many run: until the queue is empty, or preemption is needed and the backlog is not above its limit |
| Scheduler.Reactor.RunSomeTasks | rpc/seastar/seastar-18.08-branch/core/reactor.cc:3099-3133 | one turn after another, until nothing is left or a turn is preempted and no longer, as a run of the state machine |
| AppendFile.StepKeepsInv | rpc/seastar/seastar-18.08-branch/core/reactor.cc:1553-1656 | what every step keeps |
| AppendFile.Safety | rpc/seastar/seastar-18.08-branch/core/reactor.cc:1552-1587 | in every run: a size change, a truncate and an exclusive flush are alone in flight, writes not counted as one stay in the file, the logical size is at most the kernel's, dispatch is in order |
| AppendFile.CountedAsChanging | rpc/seastar/seastar-18.08-branch/core/reactor.cc:1553-1587 | exactly which operations count as size-changing when they are dispatched |
| AppendFile.WaitsForOthers | rpc/seastar/seastar-18.08-branch/core/reactor.cc:1566-1639 | an operation is held back only by a size change in flight, or, if it is one itself, by anything in flight |
| AppendFile.LogicalSizeIs | rpc/seastar/seastar-18.08-branch/core/reactor.cc:1653-1656 | over any run, the logical size is the greatest of the size at the last successful truncate (or at the opening) and the ends of the writes completed since |
| AppendFile.CompletionSizes | rpc/seastar/seastar-18.08-branch/core/reactor.cc:1809-1828 | a truncate that succeeds sets the logical, the committed and the kernel's size to its position; a write raises them to its end; nothing else that completes changes them |
| AppendFile.OtherSizes | rpc/seastar/seastar-18.08-branch/core/reactor.cc:1589-1625 | what the steps other than completions do to the sizes |
| AppendFile.ProcessRests | rpc/seastar/seastar-18.08-branch/core/reactor.cc:1627-1639 | after process_queue, a waiting operation means one in flight; a closed idle file is completed once |
| AppendFile.Drains | rpc/seastar/seastar-18.08-branch/core/reactor.cc:1627-1656 | no deadlock: as many answers as operations, in any order and with any outcome, end them all, and a close that waits is completed once |
| AppendFile.SpeculationCovers | rpc/seastar/seastar-18.08-branch/core/reactor.cc:1589-1625 | the speculated size covers every write in front of the first exclusive operation |
| AppendFile.SpeculationIsExact | rpc/seastar/seastar-18.08-branch/core/reactor.cc:1589-1625 | when the file is extended ahead of its writes and to what size, in terms of the operations that wait |
| AppendFile.SpeculationUnblocks | rpc/seastar/seastar-18.08-branch/core/reactor.cc:1589-1625 | if the file was idle, all operations in front of the first exclusive one are in flight at once |
| AppendFile.AnswerMakesProgress | rpc/seastar/seastar-18.08-branch/core/reactor.cc:1575-1587 | each answer ends exactly one operation |
| AppendFile.AppendChallengedFile.OptimizeQueue | rpc/seastar/seastar-18.08-branch/core/reactor.cc:1589-1625 | the loops compute the speculated size |
| AppendFile.AppendChallengedFile.ProcessQueue | rpc/seastar/seastar-18.08-branch/core/reactor.cc:1627-1639 | the loop dispatches as far as it may |
| AppendFile.AppendChallengedFile.OnCompletion | rpc/seastar/seastar-18.08-branch/core/reactor.cc:1575-1587 | what the end of an operation does to sizes and counters (what that means is in CompletionSizes) |
| AppendFile.AppendChallengedFile.ReadDma | rpc/seastar/seastar-18.08-branch/core/reactor.cc:1658-1681 | a read is cut to the aligned logical size |
| AppendFile.AppendChallengedFile.ReadDmaBuffers | rpc/seastar/seastar-18.08-branch/core/reactor.cc:1683-1717 | which buffers of a read the kernel is passed, and how long the last one is |
| AppendFile.PassedIsRight | rpc/seastar/seastar-18.08-branch/core/reactor.cc:1691-1703 | these hold what is there to read if and only if no buffer reaches behind the logical size, or the first that does is twice as long as what is left up to the aligned one |
| AppendFile.PassedTooShort | rpc/seastar/seastar-18.08-branch/core/reactor.cc:1697-1703 | an input on which 1024 bytes are asked for instead of 4096 |
| AppendFile.AppendChallengedFile.WriteDma | rpc/seastar/seastar-18.08-branch/core/reactor.cc:1720-1743 | the write is queued and dispatched when it may be |
| AppendFile.AppendChallengedFile.FlushFile | rpc/seastar/seastar-18.08-branch/core/reactor.cc:1771-1798 | a flush goes straight to the kernel if and only if it changes no size and fsync is not exclusive |
| AppendFile.AppendChallengedFile.CloseFile | rpc/seastar/seastar-18.08-branch/core/reactor.cc:1835-1849 | completed at once if nothing is left, and otherwise when everything has ended |
| AppendFile.AppendChallengedFile.TruncateFile | rpc/seastar/seastar-18.08-branch/core/reactor.cc:1809-1828 | a truncate is queued |
| AppendFile.AppendChallengedFile.FinishClose | rpc/seastar/seastar-18.08-branch/core/reactor.cc:1835-1849 | a closed file is cut to its logical size and loses no write |
| Wakeup.InitialInv | rpc/seastar/seastar-18.08-branch/core/reactor.cc:3335-3350 | the invariant holds at the start |
| Wakeup.StepKeepsInv | rpc/seastar/seastar-18.08-branch/core/reactor.cc:3335-3350 | and every step of senders, receiver and store buffers keeps it |
| Wakeup.NoLostWakeup | rpc/seastar/seastar-18.08-branch/core/reactor.cc:2938-2969 | when the reactor waits and a message exists, a signal is pending or a sender is between push and kill |
| Wakeup.CheckFindsSleeper | rpc/seastar/seastar-18.08-branch/core/reactor.cc:3602-3617 | and that sender will see the reactor asleep |
| Wakeup.CheckReadsMemory | rpc/seastar/seastar-18.08-branch/core/reactor.cc:3602-3617 | what a sender reads is what is in memory; a reactor that runs and whose stores are out gets no signal |
| Wakeup.NoMessageIsLost | rpc/seastar/seastar-18.08-branch/core/reactor.cc:3335-3350 | over any run, what was sent is what was taken and what is still there, visible or in a store buffer |
| Wakeup.SignalsAreKills | rpc/seastar/seastar-18.08-branch/core/reactor.cc:2938-2969 | over any run, no more signals reach the reactor than were sent |
| Wakeup.WakeupLostWithoutBarrier | rpc/seastar/seastar-18.08-branch/core/systemwide_memory_barrier.cc:72-94 | without the barrier there is a run that loses the wakeup |
| Futures.StepsAreRuns | rpc/seastar/seastar-18.08-branch/core/future.hh:106-122 | what the contracts of the methods say are runs of the channel table |
| Futures.RunsCompose | rpc/seastar/seastar-18.08-branch/core/future.hh:106-122 | runs can be put together |
| Futures.ExactlyOnce | rpc/seastar/seastar-18.08-branch/core/future.hh:106-122 | in every run, a value that was set is, through any chain of forwards, in exactly one place: still in an open channel, or delivered, reported or dropped, once; and it is the value that was set |
| Futures.FollowedIsHeld | rpc/seastar/seastar-18.08-branch/core/future.hh:1025-1033 | however often a value is forwarded, it stays what it is |
| Futures.EndsApart | rpc/seastar/seastar-18.08-branch/core/future.hh:106-122 | two values that were set never end in the same place |
| Futures.NothingFromNowhere | rpc/seastar/seastar-18.08-branch/core/future.hh:106-122 | a value that is held, or was consumed, is one that was set, and has come from there |
| Futures.SetOnce | rpc/seastar/seastar-18.08-branch/core/future.hh:197-212 | a channel gets a value at most once, whether it is set or forwarded |
| Futures.ValueKept | rpc/seastar/seastar-18.08-branch/core/future.hh:150-193 | moves do not change a value |
| Futures.EndsOnce | rpc/seastar/seastar-18.08-branch/core/future.hh:106-122 | a channel ends at most once |
| Futures.Runtime.LinksAreMutual | rpc/seastar/seastar-18.08-branch/core/future.hh:1253-1259 | promise and future point at each other or not at all |
| Futures.Runtime.OneHome | rpc/seastar/seastar-18.08-branch/core/future.hh:107-117 | every channel keeps its state in exactly one of promise, continuation and future |
| Futures.Runtime.NoStrays | rpc/seastar/seastar-18.08-branch/core/future.hh:107-117 | and there is no value anywhere else |
| Futures.Runtime.RunNext | rpc/seastar/seastar-18.08-branch/core/future.hh:413-416 | running a continuation delivers its value |
| Futures.Promise.constructor | rpc/seastar/seastar-18.08-branch/core/future.hh:444 | a new channel |
| Futures.Promise.Move | rpc/seastar/seastar-18.08-branch/core/future.hh:447-455 | the channel is the same, the pointers follow |
| Futures.Promise.Assign | rpc/seastar/seastar-18.08-branch/core/future.hh:461-467 | the promise that was here dies as in the destructor, and then the channel of the other moves in |
| Futures.Promise.GetFuture | rpc/seastar/seastar-18.08-branch/core/future.hh:1231-1237 | the future of the channel |
| Futures.Promise.Set | rpc/seastar/seastar-18.08-branch/core/future.hh:499-545 | the value is set once; a waiting continuation is queued, in front if it is urgent |
| Futures.Promise.Abandon | rpc/seastar/seastar-18.08-branch/core/future.hh:1261-1272 | a dying promise gives its state to the future; without one a failure is reported, and a result or a wait is dropped |
| Futures.Future.Ready | rpc/seastar/seastar-18.08-branch/core/future.hh:738-747 | a channel with its value |
| Futures.Future.Move | rpc/seastar/seastar-18.08-branch/core/future.hh:813-821 | the channel is the same, the pointers follow |
| Futures.Future.Schedule | rpc/seastar/seastar-18.08-branch/core/future.hh:760-770 | an available value goes with a queued continuation, otherwise the promise gets it |
| Futures.Future.GetAvailableState | rpc/seastar/seastar-18.08-branch/core/future.hh:772-780 | the value is delivered to the caller |
| Futures.Future.Destroy | rpc/seastar/seastar-18.08-branch/core/future.hh:832-839 | an ignored failure is reported, once |
| Futures.Future.ForwardTo | rpc/seastar/seastar-18.08-branch/core/future.hh:1025-1033 | an available value is that of the channel of the other promise from then on; otherwise the promise of this future becomes the producer of that channel |
| DmaReads.DmaReadBulk | rpc/seastar/seastar-18.08-branch/core/reactor.cc:1432-1484 | the bytes of the file from offset on, covering the range by less than a block, whatever short reads there are |
| DmaReads.ReadMaybeEof | rpc/seastar/seastar-18.08-branch/core/reactor.cc:1486-1523 | a further read, where an unaligned position means the end |
| DmaReads.ReadState.AppendNewData | rpc/seastar/seastar-18.08-branch/core/file.hh:514-519 | new data is copied behind what is there |
| DmaReads.ReadState.TrimBufBeforeRet | rpc/seastar/seastar-18.08-branch/core/file.hh:492-499 | the bytes behind the front, if there are any |
| DmaReads.NextRead | rpc/seastar/seastar-18.08-branch/core/reactor.cc:1463-1482 | a further read goes on where the last one stopped; an empty one means the end |
| FileStreams.ReadRange | rpc/seastar/seastar-18.08-branch/core/fstream.cc:169-184 | the buffers of a stream make up exactly the range, up to the end of the file |
| FileStreams.ReadBlocks | rpc/seastar/seastar-18.08-branch/core/fstream.cc:248-281 | a read of whole blocks is trimmed to what was asked for |
| FileStreams.FirstReadIsNext | rpc/seastar/seastar-18.08-branch/core/fstream.cc:169-184 | the oldest read delivers the next bytes, and some unless none are left |
| FileStreams.ReadsAheadFacts | rpc/seastar/seastar-18.08-branch/core/fstream.cc:233-285 | as many reads are outstanding as wanted and no more, unless the range is used up; those before stay in front, and of the new ones only those that have to be there are empty |
| FileStreams.OneReadEnds | rpc/seastar/seastar-18.08-branch/core/fstream.cc:254-258 | a read ends with the range, or with the first block that makes it as long as a buffer |
| FileStreams.ShrunkIsSafe | rpc/seastar/seastar-18.08-branch/core/fstream.cc:131-137 | dropping a whole buffer of the new size keeps the stream below the target |
| FileStreams.ShrunkIsLargest | rpc/seastar/seastar-18.08-branch/core/fstream.cc:131-137 | and no larger power of two does |
| FileStreams.FileDataSource.IssueReadAheads | rpc/seastar/seastar-18.08-branch/core/fstream.cc:233-285 | exactly the reads that are issued, and what the stream delivers does not change |
| FileStreams.FileDataSource.Get | rpc/seastar/seastar-18.08-branch/core/fstream.cc:169-184 | the next bytes, empty only at the end; which reads are outstanding then, and what is counted as read |
| FileStreams.FileDataSource.Skip | rpc/seastar/seastar-18.08-branch/core/fstream.cc:185-214 | exactly the next n bytes are gone, and the reads dropped whole are counted as such; the next buffer is broken if and only if the position is behind the file and inside an issued read |
| FileStreams.DroppedWholeReads | rpc/seastar/seastar-18.08-branch/core/fstream.cc:185-214 | the reads dropped whole are the first ones, as many as the skip covers |
| FileStreams.SkipBehindEnd | rpc/seastar/seastar-18.08-branch/core/fstream.cc:195-202 | an input on which a skip leaves a buffer whose size wrapped around |
| FileStreams.FileDataSource.SetNewBufferSize | rpc/seastar/seastar-18.08-branch/core/fstream.cc:116-144 | when and to what the buffer size shrinks |
| FileStreams.FileDataSource.UpdateHistoryConsumed | rpc/seastar/seastar-18.08-branch/core/fstream.cc:94-113 | when the buffer size doubles |
| FileStreams.FileDataSource.Close | rpc/seastar/seastar-18.08-branch/core/fstream.cc:215-231 | no read is issued any more; what is outstanding is counted as dropped |
| FileStreams.History.Update | rpc/seastar/seastar-18.08-branch/core/fstream.cc:78-90 | two windows of what was read and dropped |
| OutputStreams.OutputStream.Write | rpc/seastar/seastar-18.08-branch/core/iostream-impl.hh:327-375 | the bytes written are those before and the new ones, in sink, on their way or buffered, in that order; which chunk is put, what follows it and what stays in the buffer; which writes put, and so call a scheduled flush off |
| OutputStreams.OutputStream.SplitAndPut | rpc/seastar/seastar-18.08-branch/core/iostream-impl.hh:305-325 | chunks of the stream's size, less than one stays in the buffer |
| OutputStreams.OutputStream.Put | rpc/seastar/seastar-18.08-branch/core/iostream-impl.hh:410-424 | a put waits for a batched flush that is under way |
| OutputStreams.OutputStream.Flush | rpc/seastar/seastar-18.08-branch/core/iostream-impl.hh:377-406 | at once, or left to the poller, or the error of an earlier one |
| OutputStreams.OutputStream.PollFlush | rpc/seastar/seastar-18.08-branch/core/iostream-impl.hh:426-460 | what is buffered goes out; a flush that was called off ends the batch |
| OutputStreams.OutputStream.PutDone | rpc/seastar/seastar-18.08-branch/core/iostream-impl.hh:305-325 | the sink has the chunk, and the call goes on with what is left of it |
| OutputStreams.OutputStream.PutsDoNotOverlap | rpc/seastar/seastar-18.08-branch/core/iostream-impl.hh:410-424 | never two puts at a time |
| OutputStreams.OutputStream.Pipeline | rpc/seastar/seastar-18.08-branch/core/iostream-impl.hh:305-375 | without failure, the bytes in the sink, in a batch, in a put, behind it and in the buffer are those written, in order |
| OutputStreams.OutputStream.SinkFlushDone | rpc/seastar/seastar-18.08-branch/core/iostream-impl.hh:377-386 | when a flush that is not batched had something to put, the flush of the sink covers everything written |
| OutputStreams.OutputStream.BatchFlushDone | rpc/seastar/seastar-18.08-branch/core/iostream-impl.hh:448-459 | the flush of the sink covers all it has taken; a flush that came meanwhile starts, or the batch ends |
| OutputStreams.FlushCalledOff | rpc/seastar/seastar-18.08-branch/core/iostream-impl.hh:410-424 | a run in which a batched flush succeeds and the sink is never flushed |
| OutputStreams.FlushOfEmptyBuffer | rpc/seastar/seastar-18.08-branch/core/iostream-impl.hh:377-406 | a run in which a flush that is not batched succeeds and the sink is never flushed |
| OutputStreams.OutputStream.AtRest | rpc/seastar/seastar-18.08-branch/core/iostream-impl.hh:426-460 | at rest without failure, the sink has all bytes but those in the buffer, and all written before the last batched flush; it was flushed behind these unless a put called that flush off or the flush of the sink failed |
| FairQueues.FairQueue.DispatchRequests | rpc/seastar/seastar-18.08-branch/core/fair_queue.hh:239-271 | with any number of renormalisations, the same requests in the same order as in a queue with unbounded numbers |
| FairQueues.FairQueue.NormalizeStats | rpc/seastar/seastar-18.08-branch/core/fair_queue.hh:156-163 | all accumulators and the time base are scaled by one factor |
| FairQueues.FairQueue.NextAccumulated | rpc/seastar/seastar-18.08-branch/core/fair_queue.hh:253-262 | the loop ends with a finite number, which is the unbounded one, scaled |
| FairQueues.FairQueue.Queue | rpc/seastar/seastar-18.08-branch/core/fair_queue.hh:221-228 | the class is in the heap, its request last among its own (what that means for the order is in FirstComeFirstServed) |
| FairQueues.ScaledSameOrder | rpc/seastar/seastar-18.08-branch/core/fair_queue.hh:119-123 | one factor does not change any comparison |
| FairQueues.HeapSame | rpc/seastar/seastar-18.08-branch/core/fair_queue.hh:132-150 | and so nothing the heap does |
| FairQueues.PushKeepsHeap | rpc/seastar/seastar-18.08-branch/core/fair_queue.hh:136-141 | the heap order after a push |
| FairQueues.PopKeepsHeap | rpc/seastar/seastar-18.08-branch/core/fair_queue.hh:143-150 | the heap order after a pop |
| FairQueues.DispatchTakesOldest | rpc/seastar/seastar-18.08-branch/core/fair_queue.hh:246-264 | the oldest request of the class at the top, which alone is charged |
| FairQueues.TopIsLeastOfAll | rpc/seastar/seastar-18.08-branch/core/fair_queue.hh:143-150 | that class has accumulated least of all with requests |
| FairService.CostIsDemand | rpc/seastar/seastar-18.08-branch/core/fair_queue.hh:254 | cost, times shares and the product of both limits, is weight times the limit on bytes and size times the limit on requests |
| FairService.CostPerShare | rpc/seastar/seastar-18.08-branch/core/fair_queue.hh:254 | cost times shares is the same for all numbers of shares |
| FairService.FairlyServed | rpc/seastar/seastar-18.08-branch/core/fair_queue.hh:239-271 | over any run, of two classes that have requests throughout, what one is served for its shares, weighted with the growth of costs over time, is ahead of the other by at most one request's cost, less what it was ahead before |
| FairService.FairlyServedAlike | rpc/seastar/seastar-18.08-branch/core/fair_queue.hh:85-102 | so two such classes that start even are served in the ratio of their shares, to within one request |
| FairService.FirstComeFirstServed | rpc/seastar/seastar-18.08-branch/core/fair_queue.hh:221-248 | over any run, what was dispatched of a class and what waits is what was dispatched and waited before, and what came since, in that order |
| FairService.CountersAreRight | rpc/seastar/seastar-18.08-branch/core/fair_queue.hh:232-251 | over any run, the three counters are what they were, with the requests dispatched and without those that ended |
| FairService.CapacityIsKept | rpc/seastar/seastar-18.08-branch/core/fair_queue.hh:165-170 | requests are dispatched only below the three limits, and there are never more than the capacity |
| FairService.DispatchesAreARun | rpc/seastar/seastar-18.08-branch/core/fair_queue.hh:239-271 | a round of dispatches is such a run, and goes on until nothing waits or a limit is reached |
| DeleterGraph.AllActionsRanOnce | rpc/seastar/seastar-18.08-branch/core/deleter.hh:118-127 | once no handle holds anything, no node is left and every action ran exactly once |
| Deleters.Memory.MakeFree | rpc/seastar/seastar-18.08-branch/core/deleter.hh:235-242 | a handle that is the object itself |
| Deleters.Memory.MakeDeleter | rpc/seastar/seastar-18.08-branch/core/deleter.hh:168-172 | a node for the action, with the other deleter behind it |
| Deleters.Memory.Share | rpc/seastar/seastar-18.08-branch/core/deleter.hh:193-204 | one more reference; an object gets a node first |
| Deleters.Memory.Destroy | rpc/seastar/seastar-18.08-branch/core/deleter.hh:118-127 | the reference goes, and with the last one the node, its action and what it kept |
| Deleters.Memory.Append | rpc/seastar/seastar-18.08-branch/core/deleter.hh:209-229 | the deleter is at the end of the chain, other handles are untouched; it stops if and only if the chain meets what the deleter refers to |
| DeleterGraph.MirrorsEnd | rpc/seastar/seastar-18.08-branch/core/deleter.hh:214-226 | the walk over the rewritten chain sees the references of the old chain, in order |
| Rings.SlotsDiffer | rpc/seastar/seastar-18.08-branch/core/circular_buffer.hh:207-212 | elements less than the capacity apart have different slots |
| Rings.SlotOfWrap | rpc/seastar/seastar-18.08-branch/core/circular_buffer.hh:207-212 | masking does not see that an index wrapped around |
| CircularBuffers.CircularBuffer.Get | rpc/seastar/seastar-18.08-branch/core/circular_buffer.hh:440-452 | the i-th element |
| CircularBuffers.CircularBuffer.Expand | rpc/seastar/seastar-18.08-branch/core/circular_buffer.hh:296-322 | the same elements in a larger storage |
| CircularBuffers.CircularBuffer.Reserve | rpc/seastar/seastar-18.08-branch/core/circular_buffer.hh:236-243 | room for that many, in the least power of two |
| CircularBuffers.CircularBuffer.PushBack | rpc/seastar/seastar-18.08-branch/core/circular_buffer.hh:365-384 | one more element at the end; a full storage doubles |
| CircularBuffers.CircularBuffer.PushFront | rpc/seastar/seastar-18.08-branch/core/circular_buffer.hh:334-353 | one more element in front; a full storage doubles |
| CircularBuffers.CircularBuffer.PopFront | rpc/seastar/seastar-18.08-branch/core/circular_buffer.hh:424-430 | the first element goes |
| CircularBuffers.CircularBuffer.PopBack | rpc/seastar/seastar-18.08-branch/core/circular_buffer.hh:432-438 | the last element goes |
| CircularBuffers.CircularBuffer.Erase | rpc/seastar/seastar-18.08-branch/core/circular_buffer.hh:461-488 | exactly the elements of the gap go, and the shorter end moves; where the element behind the gap is then |
| ChunkedFifos.ChunkedFifo.Length | rpc/seastar/seastar-18.08-branch/core/chunked_fifo.hh:200-213 | the formula over the first and the last chunk is the length |
| ChunkedFifos.ChunkedFifo.PushBack | rpc/seastar/seastar-18.08-branch/core/chunked_fifo.hh:338-380 | one more element, or the queue as it was if its construction throws; no allocation while there is room, a spare chunk first and one new one otherwise; no chunk leaks |
| ChunkedFifos.ChunkedFifo.UndoRoomBack | rpc/seastar/seastar-18.08-branch/core/chunked_fifo.hh:311-336 | an empty last chunk is unlinked and deleted |
| ChunkedFifos.ChunkedFifo.Front | rpc/seastar/seastar-18.08-branch/core/chunked_fifo.hh:395-399 | the first element |
| ChunkedFifos.ChunkedFifo.Back | rpc/seastar/seastar-18.08-branch/core/chunked_fifo.hh:381-386 | the last element |
| ChunkedFifos.ChunkedFifo.PopFront | rpc/seastar/seastar-18.08-branch/core/chunked_fifo.hh:432-441 | the first element goes; an emptied chunk is kept if none is spare and deleted otherwise |
| ChunkedFifos.ChunkedFifo.Reserve | rpc/seastar/seastar-18.08-branch/core/chunked_fifo.hh:443-466 | for every n, how many chunks are allocated; room for n - size() more elements, in the fewest chunks, if and only if the need does not wrap around |
| ChunkedFifos.ChunkedFifo.PushAll | rpc/seastar/seastar-18.08-branch/core/chunked_fifo.hh:443-466 | as many pushes as there is room for allocate nothing |
| ChunkedFifos.NeededChunksExact | rpc/seastar/seastar-18.08-branch/core/chunked_fifo.hh:447-454 | the chunk count in size_t arithmetic is the least that does if and only if the need is in range; for n below size() it is none or about 2^64 elements' worth |
| ChunkedFifos.ReserveBelowSize | rpc/seastar/seastar-18.08-branch/core/chunked_fifo.hh:447-454 | an input on which it is more than 2^55 chunks |
| Prometheus.Walk | rpc/seastar/seastar-18.08-branch/core/prometheus.cc:340-371 | every name of the union between the two iterators once, in order, with the metrics of all shards and their number |
| Prometheus.ScanShows | rpc/seastar/seastar-18.08-branch/core/prometheus.cc:347-370 | a pass over the shards finds the least name ahead, and how many metrics it has |
| Prometheus.StepBound | rpc/seastar/seastar-18.08-branch/core/prometheus.cc:350-353 | advancing past the name shown leaves every shard at the next name |
| Prometheus.MetricFamilyIterator.Next | rpc/seastar/seastar-18.08-branch/core/prometheus.cc:340-371 | the names ahead are those behind the one shown |
| Prometheus.MetricFamilyIterator.Copy | rpc/seastar/seastar-18.08-branch/core/prometheus.cc:375-383 | a copy has the same position and shows the same family |
| Prometheus.MetricFamilyIterator.ForeachMetric | rpc/seastar/seastar-18.08-branch/core/prometheus.cc:444-466 | exactly the metrics of that family, shard by shard |
| Prometheus.FindBound | rpc/seastar/seastar-18.08-branch/core/prometheus.cc:496-520 | an iterator at the first name from the bound on |
| Prometheus.GetRange | rpc/seastar/seastar-18.08-branch/core/prometheus.cc:529-546 | exactly the families asked for, if and only if the prefix does not end in 255 or nothing is near it |
| Prometheus.WrappedRange | rpc/seastar/seastar-18.08-branch/core/prometheus.cc:533-537 | for a prefix that ends in 255, the range is right if and only if there is nothing near it |
| Prometheus.WrappedRangeMissesName | rpc/seastar/seastar-18.08-branch/core/prometheus.cc:533-537 | an input on which a family is missed, with a name of the form that metrics.cc:211-213 makes |
| Prometheus.PastForever | rpc/seastar/seastar-18.08-branch/core/prometheus.cc:411-419 | an iterator behind the end of its range never meets it |
| Prometheus.WriteRepresentation | rpc/seastar/seastar-18.08-branch/core/prometheus.cc:548-553 | the output has exactly the families asked for |

## Findings

What the proofs showed about the code, each with an input and the exact condition:

- Skipping past the end of a file: `file_data_source_impl::skip` (fstream.cc:185-214) trims the buffer of a read that
  was already issued by the full distance, and `temporary_buffer::trim_front` does not check it. If the new position is
  behind the end of the file and strictly inside an issued read, the size of the next buffer wraps around. This is
  exactly when it happens (`FileStreams.FileDataSource.Skip`); a file of one byte, read from its start with a buffer of
  8192 bytes and one read ahead, does it after one `get` and a `skip` of 1 (`FileStreams.SkipBehindEnd`).
- A prefix that ends in the byte 255: `get_range` (prometheus.cc:529-546) adds one to the last byte of the prefix to get
  the end of the range, which wraps to 0, so that the end is before the start. The range is right exactly if no family
  has that prefix and none lies between the wrapped end and the prefix (`Prometheus.GetRange`,
  `Prometheus.WrappedRange`). Names are a group, an underscore and a metric (metrics.cc:211-213); a shard whose family has
  the group of the single byte 255 and the metric `x` is an input, asked for the prefix of that byte
  (`Prometheus.WrappedRangeMissesName`).
- A read into several buffers of an append-challenged file (reactor.cc:1697-1703): the buffer that crosses the logical size
  gets the length of what lies behind the aligned logical size, instead of what lies before it, and is left out if that
  is nothing; if the buffer ends before the aligned size, the difference wraps around. The kernel is asked for
  the right bytes exactly if no buffer reaches behind the logical size, or the one that does is twice as long as what was
  left up to the aligned size (`AppendFile.PassedIsRight`); a read of one buffer of 5120 bytes from the start of a
  file of 4096 asks for 1024 (`AppendFile.PassedTooShort`).
- `chunked_fifo::reserve(n)` with n below `size()` (chunked_fifo.hh:443-466): the unsigned difference wraps around. If
  what the last chunk has room for brings it back by less than a chunk, nothing is allocated; otherwise about 2^64
  elements' worth of chunks are asked for. The other end of the range, n close to 2^64, wraps around in the rounding and
  asks for nothing. `ChunkedFifos.NeededChunksExact` has the exact condition; 300 elements, 128 to a chunk and
  `reserve(10)` are an input (`ChunkedFifos.ReserveBelowSize`).
- A batched flush that is called off: `output_stream::put` (iostream-impl.hh:410-424) clears `_flush`, and the poller then
  ends the batch without flushing the sink (426-434), although `flush()` succeeded. The bytes do get to the sink. This
  happens exactly when a write puts a chunk after `flush()` and before the poller gets to it
  (`OutputStreams.OutputStream.Write`, `AtRest`); with a buffer of one byte, writing, flushing and writing again is an
  input (`OutputStreams.FlushCalledOff`).
- A flush that is not batched flushes the sink only if there is something in the buffer (iostream-impl.hh:377-390): after
  a write that leaves the buffer empty, `flush()` does nothing (`OutputStreams.OutputStream.Flush`,
  `OutputStreams.FlushOfEmptyBuffer`).
- Size classes above 0x3800_0000: `idx_to_size` (memory.cc:301-306) shifts the leading bit out of a 32-bit word, and the
  class chosen no longer holds the size, exactly for sizes above 7 * 2^27 (`SizeClasses.SizeClassHoldsIff`). Pools stop at 16384,
  so no pool is affected.
- `find_and_unlink_span` (memory.cc:530-532) tests whether the request is larger than the spans of the list it would
  start at; that is never so, because the list is the one of the next power of two. Without consequence.
- `deleter::append` (deleter.hh:217) asserts exactly when the appended deleter refers to a node of the chain
  it is appended to (`Deleters.Memory.Append`).

## Left out

- Page allocator: reclaimers and their re-entrancy, `maybe_reclaim`, `do_resize`, frees from other cores, heap profiling,
  warnings about large allocations. `initialize()` is the constructor, with zeroed page structures. `find_and_unlink_span`
  does not initialise on demand. Memory has at most 2^24 pages.
- Alignment arguments: `allocate_aligned` and `free_aligned` are not modelled.
- Small pools: `_pages_in_use`, which adds the requested and subtracts the granted pages and is not conserved; the chains
  of free objects are sequences of addresses, not words inside the objects. Destruction of a pool.
- Scheduler: 64-bit overflow of a virtual runtime after centuries; the queue of tasks that run at exit; urgent tasks.
  What a task does is what it adds to queues, and preemption is asked for or not after each task.
- Append-challenged files: writes of several buffers at once, which only add up their lengths; the kernel's size is a
  number. For reads of several buffers, files and buffers are below 2^63 bytes.
- Wakeup: queues from threads outside the reactors; pollers other than those for messages and signals are a step that
  keeps the reactor awake.
- Futures: blocking `get` and `wait` in threads, `operator=` of a future (destroy, then move), `then` and its relatives,
  which are compositions of `Schedule` and `ForwardTo`; one queue of tasks.
- File streams: file sizes near 2^64, failing reads, the statistics, and the wait of `close` for reads under way.
  `input_stream` itself.
- Output streams: zero-copy packets, `close`, concurrent calls on one stream, a size of 0.
- Fair queue: rounding of floats (they are reals, with a largest finite one), the clock (it is a growth factor),
  `unregister_priority_class`. The fairness over runs is for classes that keep their shares and have requests throughout.
- Deleters: overflow of the 32-bit reference count; destructors of objects are numbered actions; memory is a map of
  slots. That an action runs only after every sharer is gone is not claimed: append moves the tail out of shared nodes.
- Circular buffer: constructors and destructors of elements, and exceptions while expanding; capacities above 2^63.
- Chunked queue: chunks are in a map keyed by address; chunks of more than 2^30 items; `clear` and `shrink_to_fit`.
  The guarantee of `reserve` is for pushes without pops between them, and memory never runs out.
- Metrics: the text and protobuf formats, and how the metrics of a shard are collected.
