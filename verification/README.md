# A verified model of the RT-Thread kernel

This project models the core of the RT-Thread kernel under `rt-thread/src` in its single-CPU
configuration, and the worst-case stack analysis `rt-thread/tools/WCS.py`, and proves what the
code keeps. `dafny verify dfyconfig.toml` checks all of it.

Most components come as two modules. One, named `...Runs` (or `...Paths`), states the calls as
functions of an abstract state, and proves what each call means and what every run of calls
keeps: what it returns, what becomes of its block, timer, thread or mail, and what stays as it
was. The other has a class with the fields the source updates in place, whose methods follow the
source step by step and are proved to compute those functions. `assert` statements marked so in
the methods are the source's own.

| component | modules |
|---|---|
| small memory manager (`mem.c`) | `Blocks`, `Payloads`, `SmallMemRuns`, `SmallMem` |
| memory heap (`memheap.c`) | `Blocks`, `Payloads`, `MemHeapRuns`, `MemHeapRealloc`, `MemHeap` |
| slab allocator (`slab.c`) | `SlabPages`, `SlabPageList`, `SlabRuns`, `SlabZones`, `Slab` |
| timers (`timer.c`) | `TimerTicks`, `TimerRuns`, `TimerSoft`, `TimerViews`, `TimerList` |
| scheduler and thread states (`scheduler.c`, `thread.c`, `kservice.c`) | `ReadyBits`, `SchedulerRuns`, `SchedulerCalls`, `Scheduler`, `ReadyQueue` |
| mutex (`ipc.c`, `thread.c`) | `MutexRuns`, `MutexNesting`, `MutexStuck`, `MutexHolds`, `MutexKernel` |
| event (`ipc.c`) | `EventRuns`, `EventObject` |
| message queue, mailbox, semaphore (`ipc.c`), memory pool (`mempool.c`) | `Wakeups`, `QueueRuns`, `QueueDelivery`, `MessageQueue`, `Mailbox`, `Semaphore`, `MemPool`, `TimedWait` |
| circular and single lists (`rtservice.h` and in-band links) | `RtList`, `Chains` |
| stack analysis (`WCS.py`) | `WcsPaths`, `Wcs` |

A section of code that runs with interrupts disabled is one step. A call that blocks is several
steps, between which any other steps may come: the theorems about runs hold for every such
interleaving. The circular lists of `memheap.c` and `timer.c` are modelled by their links;
elsewhere a wait list or ready list is the sequence of its threads, which is what the theorems
of `RtList` allow. Constants are those of a 64-bit build with RT_USING_MEMTRACE, 32 priorities
(`ReadyQueue` has 256) and a skip list of one level.

## What the proofs show about the code

- `memheap.c:200` compares with `<`, so a request for exactly the last free payload is refused
  although a block holds it: `MemHeapRuns.AllocRefusesLastBlock` says exactly when.
- `memheap.c:430` tests whether a block can grow in place with the free size in an `rt_int32_t`
  and with sums that wrap. `MemHeapRealloc.CodeMeetsSpecIff` says for which heaps and requests the
  call does what is meant; `MemHeapRealloc.SoundIff` and `MemHeapRealloc.RunKeepsIff` say when it
  keeps the heap intact: unless the test passes although the bytes do not fit. Then its stores leave
  links that belong to no sequence of blocks (`MemHeap.StrayBreaks`, `MemHeap.MemoryHeap.Realloc`).
  `MemHeapRealloc.OverrunReached` is a run of two calls that gets there, in a pool of more than
  2^31 bytes; in a smaller one only requests within 12 bytes of 2^64 can
  (`MemHeapRealloc.SmallPoolSafe`).
- Neither `rt_memheap_init` nor `rt_mp_init` tests that what it stores fits:
  `MemHeap.InitFitsIff`, `MemPool.InitStoresIff`.
- `mem.c:304` and `memheap.c:193` wrap for the last three sizes: `Blocks.AlignUpCovers`.
- A resize in `mem.c` that is too small a shrink to split moves the block, and fails exactly if no
  free block fits: `SmallMemRuns.ShrinkFailsIff`, `SmallMemRuns.ReallocFailsIff`.
- A timer's deadline is compared with `RT_TICK_MAX / 2`, which is less than half the tick range;
  that leaves three ticks of lateness, no more: `TimerTicks.LatenessBound`. The hard timers stay
  well within, because every tick checks them.
- An interval of zero is accepted for a periodic timer. `rt_timer_check` ends, whatever callbacks
  do that start no timer with an interval of zero, exactly if no timer that is due is such a timer:
  `TimerRuns.IdleEndsIff`, `TimerRuns.CarefulEndsIff`. A one-shot timer with an interval of zero,
  as `rt_thread_delay(0)` starts, fires at the next tick.
- The soft timer check reads the clock anew and lets ticks pass during a callback, so there a
  listed timer can be more than three ticks late. A start then finds its place exactly if the list
  is empty, or its head is due after the new deadline or at most 0x80000001 ticks before it
  (`TimerTicks.PlaceSeenIff`, `TimerTicks.HeadIff`); with three ticks of lateness or less it does
  for every interval (`TimerTicks.AnyIntervalIff`). The list stays sorted through any commands and
  ticks exactly if every start passes that guard (`TimerSoft.SortedThroughIff`,
  `TimerSoft.SoftPassIff`); `TimerSoft.LateRun` is a run in which one does not.
- `rt_schedule` clears the YIELD flag before it reinserts the thread, so the comment at
  `scheduler.c:757` does not come true: `SchedulerRuns.YieldAlternates` is the code,
  `SchedulerRuns.LateYieldRotates` what the comment intends.
- Changing a priority does not schedule: that the best thread runs holds after `rt_schedule`;
  after a change of priority it holds exactly as `SchedulerRuns.PriorityTopIff` says.
- Priority inheritance is kept per mutex. Used one at a time, mutexes never leave an owner below
  a waiter (`MutexRuns.RunSafe`). A take of a second mutex while the first is held, which gets it
  or waits for it, can lead to an inversion by itself, and only such a take can:
  `MutexNesting.InversionIff`. Such a take can also lead to a thread that owns nothing and keeps
  an inherited priority, unless it gets the mutex while its thread runs at its own priority, and
  no other call can: `MutexStuck.StuckIff`. Such a thread never gets its priority back:
  `MutexStuck.StuckForGood`. Ownership stays in order all the same: `MutexNesting.RunOrderly`.
- The overflow checks for `hold`, `value` and `entry` that follow a state change in `ipc.c` never
  fail. In the methods an `assert` stands in their place.
- Waiters of a memory pool are served last come, first served, and its timed wait reads the clock
  with interrupts enabled, so its deadline can move: `MemPool.RunResumesLatest`,
  `TimedWait.Retry`. That of mailbox and message queue cannot: `TimedWait.RetryLocked`.

## Model

| member | source | states |
|---|---|---|
| `Blocks.UsedBlocksDetermine` | rt-thread/src/mem.c:125-163 | A tiled block sequence without free neighbours is determined by its used blocks: what is kept by merging on both sides is a canonical form |
| `Blocks.TakeMeaning` | rt-thread/src/mem.c:323-391 | Handing out a block adds exactly one used block of at least the requested payload, whether or not the rest is split off |
| `Blocks.FreedMeaning` | rt-thread/src/mem.c:545-559 | A release with merging on both sides removes exactly its block from the used ones |
| `Blocks.ShrunkMeaning` | rt-thread/src/mem.c:468-496 | A resize in place replaces one block by a shorter one at the same address and merges the rest |
| `Blocks.AlignUpCovers` | rt-thread/src/mem.c:304-304 | The alignment of a size rounds up by less than one unit, except that the last three sizes wrap to zero |
| `Blocks.RequestIsLeast` | rt-thread/src/mem.c:304-308 | What an allocation asks for is the least aligned payload that holds the size and the least payload there is; for the last three sizes just the latter |
| `SmallMemRuns.AllocFirstFit` | rt-thread/src/mem.c:304-405 | Exact first fit: the lowest free block whose payload holds the aligned and clamped request; failure for a non-zero size exactly when there is none |
| `SmallMemRuns.AllocMeaning` | rt-thread/src/mem.c:279-408 | An allocation only makes one new used block appear; `max` follows `used` |
| `SmallMemRuns.AllocHolds` | rt-thread/src/mem.c:279-408 | The block handed out holds the size asked for, with little to spare; the call fails exactly if no free block has the least aligned payload that is enough, and finds the lowest that has |
| `SmallMemRuns.FreeMeaning` | rt-thread/src/mem.c:516-560 | A release only takes its block out of the used ones |
| `SmallMemRuns.FreeUndoesAlloc` | rt-thread/src/mem.c:516-560 | Releasing what an allocation returned restores the block sequence exactly |
| `SmallMemRuns.ReallocMeaning` | rt-thread/src/mem.c:422-507 | A resize fails and changes nothing, or replaces the block by one that holds the aligned size: the same, a shorter one in place, or one that was free |
| `SmallMemRuns.ReallocHolds` | rt-thread/src/mem.c:435-507 | A resized block holds its new size; it stays in place exactly if its length is right or can be cut, and is then exactly as long |
| `SmallMemRuns.ReallocNullIsAlloc` | rt-thread/src/mem.c:435-451 | Resizing a null pointer is an allocation, except that the last three sizes get nothing |
| `SmallMemRuns.ReallocFailsIff` | rt-thread/src/mem.c:437-505 | A resize of a live block returns nothing exactly if the aligned size is zero or exceeds the heap, or the block has to move and no free block fits |
| `SmallMemRuns.ShrinkFailsIff` | rt-thread/src/mem.c:462-505 | A shrink fails exactly if it is too small to split the block and no free block fits |
| `SmallMemRuns.RunKeeps` | rt-thread/src/mem.c:125-163 | After every run of calls the blocks tile the heap without two free neighbours, and `max` is the greatest number of bytes in use at any moment, moves included |
| `SmallMemRuns.ReleaseOrderIrrelevant` | rt-thread/src/mem.c:516-560 | The order of releases does not matter to the blocks left |
| `SmallMemRuns.ReleaseAll` | rt-thread/src/mem.c:516-560 | Releasing all live blocks in any order leaves one free block over the heap |
| `SmallMem.Allocator.constructor` | rt-thread/src/mem.c:206-241 | The initial headers, end marker and counters spell one free block |
| `SmallMem.RoomFoundIff` | rt-thread/src/mem.c:186-204 | The record and the aligned area found lie in the memory given and use it up to its last word; nothing is found exactly if no empty area fits or the memory ends with the address space |
| `SmallMem.Allocator.PlugHoles` | rt-thread/src/mem.c:125-163 | The merging stores turn the headers into those of the coalesced sequence, keep `lfree` the lowest free block, and touch no payload in use |
| `SmallMem.Allocator.Alloc` | rt-thread/src/mem.c:279-408 | The first-fit loop from `lfree`, the split and the loop that advances `lfree` do what the specification says; no byte of a live payload changes |
| `SmallMem.Allocator.Free` | rt-thread/src/mem.c:516-563 | The release does what the specification says, keeps `lfree`, and changes no byte of a payload that stays live |
| `SmallMem.Allocator.Realloc` | rt-thread/src/mem.c:422-507 | The first min(old payload, new size) bytes are kept on every successful path, and no byte of a block live before and after changes |
| `SmallMem.FoldLowest` | rt-thread/src/mem.c:145-162 | When `lfree` is the lowest free block, merging does not change it: the two updates of `lfree` in `plug_holes` have no effect on what it means |
| `RtList.RingInsertAfter` | rt-thread/include/rtservice.h:58-65 | Insertion after a node of a circular list puts the new node behind it |
| `RtList.RingInsertBefore` | rt-thread/include/rtservice.h:73-80 | Insertion before the head appends; before another node it takes its place |
| `RtList.RingRemove` | rt-thread/include/rtservice.h:86-92 | Removal takes the node out and leaves it a list of its own |
| `RtList.RemoveUndoesInsert` | rt-thread/include/rtservice.h:58-92 | Removing a node just inserted restores the list |
| `MemHeapRuns.AllocFails` | rt-thread/src/memheap.c:200-231 | An allocation fails exactly when no free block holds the request or the request is not less than all the free payload, whatever the order of the free list |
| `MemHeapRuns.AllocRefusesLastBlock` | rt-thread/src/memheap.c:200-200 | A request that a block would hold is refused exactly when that block is all the free payload and would be used up |
| `MemHeapRuns.AllocMeaning` | rt-thread/src/memheap.c:183-336 | An allocation only makes one used block appear; the free list keeps holding exactly the free blocks; `max_used_size` follows |
| `MemHeapRuns.AllocHolds` | rt-thread/src/memheap.c:183-336 | The block handed out holds the size asked for, with little to spare; the call fails exactly if no free block has the least payload that is enough or that is all the free payload; it finds the first of the free list |
| `MemHeapRuns.FreeMeaning` | rt-thread/src/memheap.c:645-708 | A release with merging on both sides removes exactly its block and keeps the two lists in agreement |
| `MemHeapRuns.FreeUndoesAlloc` | rt-thread/src/memheap.c:597-728 | Releasing what an allocation returned restores the blocks, and the free list as a set |
| `MemHeapRuns.GrowMeaning` | rt-thread/src/memheap.c:408-486 | Growing in place lengthens the block by what the free block after it loses |
| `MemHeapRuns.ShrinkMeaning` | rt-thread/src/memheap.c:521-578 | Shrinking in place, with the rest merged to the right, replaces the block by a shorter one |
| `MemHeapRuns.ReallocMeaning` | rt-thread/src/memheap.c:361-586 | A resize fails and changes nothing, or replaces the block by one that holds the request: grown, shrunk, untouched or moved |
| `MemHeapRuns.PoolAccounts` | rt-thread/src/memheap.c:183-586 | `pool_size - available_size` is the used payload and one header for each block and the end marker |
| `MemHeapRealloc.CodeMeetsSpecIff` | rt-thread/src/memheap.c:361-503 | The resize does what is meant exactly if the growth test, when it is made, has room and need on the same side as seen through `rt_int32_t` and wrapping sums |
| `MemHeapRealloc.TestExactIff` | rt-thread/src/memheap.c:415-430 | The growth test says what it means exactly if the need lies on the same side of the room there is and the room it sees, or wraps to no less than the room seen |
| `MemHeapRealloc.SoundIff` | rt-thread/src/memheap.c:430-486 | A resize keeps tiling, merging and free list exactly if it does not overrun: the test passes although the bytes end behind the free block |
| `MemHeapRealloc.ReallocHolds` | rt-thread/src/memheap.c:361-586 | A resized block holds its new size; it stays in place exactly if it need not grow or passes the test, and is then as long as asked for, or as it was if too little would be cut off |
| `MemHeapRealloc.ReallocNullIsAlloc` | rt-thread/src/memheap.c:371-385 | Resizing a null pointer is an allocation |
| `MemHeapRealloc.RunPeak` | rt-thread/src/memheap.c:240-298 | After every safe run `max_used_size` is the greatest use at any moment, moves included |
| `MemHeapRealloc.AllocOrder` | rt-thread/src/memheap.c:240-298 | What an allocation cuts off comes first in the free list, and the others keep their order |
| `MemHeapRealloc.ReallocOrder` | rt-thread/src/memheap.c:430-578 | So does what a resize in place leaves free |
| `MemHeapRealloc.FreeOrder` | rt-thread/src/memheap.c:645-708 | A released block comes first, unless it joins a block before it |
| `MemHeapRealloc.FreedReused` | rt-thread/src/memheap.c:597-728 | A block just released is the first to be handed out again, if it joined none before it and the request fits |
| `MemHeapRealloc.SmallPoolSafe` | rt-thread/src/memheap.c:415-430 | No resize overruns in a pool below 2^31 bytes, unless the request is within 12 bytes of 2^64 |
| `MemHeapRealloc.OverrunReached` | rt-thread/src/memheap.c:361-486 | From a new heap with 2^31 free bytes, an allocation of 100 bytes and a resize to 0x90000000 end in a heap that is not sound |
| `MemHeapRealloc.RunKeepsIff` | rt-thread/src/memheap.c:183-728 | The invariant (tiling without two free neighbours, free list of exactly the free blocks) lasts through a run of calls exactly if no resize of it overruns |
| `MemHeapRealloc.RunKeeps` | rt-thread/src/memheap.c:183-728 | After every such run the pool accounts for every byte |
| `MemHeap.MemoryHeap.constructor` | rt-thread/src/memheap.c:74-146 | The two circular lists of a new heap of any size that holds two headers |
| `MemHeap.InitFitsIff` | rt-thread/src/memheap.c:85-146 | The headers of a new heap lie in the pool and apart exactly if the pool holds two, the subtraction being unchecked |
| `MemHeap.MemoryHeap.Search` | rt-thread/src/memheap.c:217-231 | The loop over the free list stops at the first listed block with room |
| `MemHeap.MemoryHeap.Alloc` | rt-thread/src/memheap.c:183-336 | The stores on both circular lists and the counters do what the specification says; no byte of a live payload changes |
| `MemHeap.MemoryHeap.Free` | rt-thread/src/memheap.c:597-728 | Left merge, right merge and insertion do what the specification says, though in the other order; no byte of a payload that stays live changes |
| `MemHeap.MemoryHeap.Grow` | rt-thread/src/memheap.c:430-486 | The growth relinks both lists as specified, or, past the room, leaves links and marks of no sequence of blocks |
| `MemHeap.StrayBreaks` | rt-thread/src/memheap.c:442-474 | A header written where no block can begin leaves links and marks that belong to no sequence of blocks |
| `MemHeap.MemoryHeap.Shrink` | rt-thread/src/memheap.c:521-578 | The shrinking relinks both lists as specified |
| `MemHeap.MemoryHeap.Realloc` | rt-thread/src/memheap.c:361-586 | The resize does what the specification of the code says for every live block and size, keeping the first min(old payload, new size) bytes and all other live payloads, whether it grows, shrinks or moves; or, exactly when it overruns, leaves broken links |
| `Payloads.CopyKept` | rt-thread/src/memheap.c:496-500 | Through allocation, copy and release of a move the copied bytes and those of all other blocks survive |
| `MemHeap.MergesCommute` | rt-thread/src/memheap.c:657-693 | The two merges of a release may be done in either order |
| `SlabPages.FreePagesDetermine` | rt-thread/src/slab.c:252-293 | A page list that is sorted and fully joined is determined by which pages are free |
| `SlabPages.AllocMeaning` | rt-thread/src/slab.c:211-241 | Pages come from the lowest place with enough adjacent free pages; the call fails exactly when there is none |
| `SlabPages.FreeMeaning` | rt-thread/src/slab.c:252-293 | A release adds exactly its pages and joins them with the runs they touch on either side |
| `SlabPages.FreeUndoesAlloc` | rt-thread/src/slab.c:211-293 | Releasing allocated pages restores the list exactly |
| `SlabPageList.PageList.PageAlloc` | rt-thread/src/slab.c:211-241 | The search through the pointer to the link and the split or removal do what the specification says |
| `SlabPageList.PageList.PageFree` | rt-thread/src/slab.c:252-293 | The search and the three ways to enter the pages do what the specification says; the asserts of the source hold |
| `SlabRuns.ZoneIndexFits` | rt-thread/src/slab.c:408-464 | The index is in range, its chunks hold the request and waste at most 7 bytes or an eighth |
| `SlabRuns.ZoneIndexBySize` | rt-thread/src/slab.c:408-464 | Two requests share an index exactly when they share a chunk size |
| `SlabRuns.TakenOk` | rt-thread/src/slab.c:541-570 | `z_nfree` counts the chunks never used and those that came back, so the free-chunk branch never takes from an empty list, and the chunk taken was free |
| `SlabRuns.SlabAllocMeaning` | rt-thread/src/slab.c:487-653 | An allocation hands out memory not handed out, of at least the requested size, and leaves the rest alone; a large one fails exactly for want of adjacent pages |
| `SlabRuns.SmallSound` | rt-thread/src/slab.c:541-651 | A small allocation fails exactly when no zone has room, none is spare and no run of pages is long enough |
| `SlabRuns.SlabFreeMeaning` | rt-thread/src/slab.c:736-853 | A release takes back exactly its pointer; zones are on their list exactly if they have room and are not spare; at most two are spare |
| `SlabZones.AllocWaste` | rt-thread/src/slab.c:487-652 | What is handed out exceeds the request by at most 7 bytes or an eighth, or by less than a page; a small request fails exactly if no zone of its size has room, none is spare, and no pages make one |
| `SlabZones.PagesLast` | rt-thread/src/slab.c:541-604 | No pages are taken for a chunk while a zone of its size has room or any zone is spare |
| `SlabZones.FreshMeaning` | rt-thread/src/slab.c:618-645 | A new zone has as many chunks as fit behind its header |
| `SlabZones.ChunksAlignedToEight` | rt-thread/src/slab.c:621-637 | Every chunk is aligned to eight bytes |
| `SlabZones.TakenOrder` | rt-thread/src/slab.c:553-570 | A zone hands out the chunks never handed out in order, then the one that came back last |
| `SlabZones.FullZoneReused` | rt-thread/src/slab.c:784-800 | A chunk released in a full zone is the first of its size to be handed out again |
| `SlabZones.SpareFirst` | rt-thread/src/slab.c:590-595 | With no room in zones of the size the first spare zone is used |
| `SlabZones.SpareLast` | rt-thread/src/slab.c:808-852 | A zone that goes spare comes back first; one is given back only with as many spare as are kept |
| `SlabZones.ReturnedZones` | rt-thread/src/slab.c:802-852 | After every run at most one zone of each chunk size is without a chunk in use, besides two spare ones |
| `SlabRuns.RunApart` | rt-thread/src/slab.c:487-853 | After any run of calls no byte belongs to two pointers handed out, and every managed page is free or belongs to one zone or large allocation |
| `SlabRuns.TestIsPower` | rt-thread/src/slab.c:628-628 | The bit trick recognizes exactly the powers of two |
| `SlabRuns.ChunksAligned` | rt-thread/src/slab.c:624-636 | Chunks whose size is a power of two up to a page lie at multiples of their size |
| `SlabRuns.WrappedFails` | rt-thread/src/slab.c:505-511 | A size that wraps when rounded up to pages asks for no pages, and no heap has as many as it needs |
| `Slab.SlabHeap.Alloc` | rt-thread/src/slab.c:487-653 | The allocation with its marks in the page usage table does what the specification says, for every size |
| `Slab.SlabHeap.TakeChunk` | rt-thread/src/slab.c:541-577 | Taking a chunk of the first zone with room |
| `Slab.SlabHeap.Free` | rt-thread/src/slab.c:736-853 | The usage table leads from any chunk to its zone, and the release does what the specification says |
| `Slab.SlabHeap.Unlink` | rt-thread/src/slab.c:816-819 | The search that unlinks a zone ends, because the zone is on the list |
| `TimerTicks.CompareExact` | rt-thread/src/timer.c:459-471 | The wrapping 32-bit comparison orders deadlines as unbounded time does |
| `TimerTicks.LatenessBound` | rt-thread/src/timer.c:459-471 | The comparison is right against every new deadline exactly when the listed timer is at most three ticks late |
| `TimerTicks.DueExact` | rt-thread/src/timer.c:654-654 | The expiry test is right under the same bound |
| `TimerTicks.DueSeenIff` | rt-thread/src/timer.c:654-654 | For a deadline less than half the range ahead, and however late, the expiry test is right exactly if the lateness, in 32 bits, is below half the range |
| `TimerTicks.PlaceSeenIff` | rt-thread/src/timer.c:447-475 | In a list in order of deadlines, none half the range after the new one, the search with wrapping ticks finds the true place exactly if no earlier deadline leads by more than the range less RT_TICK_MAX / 2 |
| `TimerTicks.HeadIff` | rt-thread/src/timer.c:447-475 | With no deadline a whole tick range before the new one, that is so exactly if the list is empty, or its head is due later or leads by no more than that |
| `TimerTicks.AnyIntervalIff` | rt-thread/src/timer.c:447-475 | A start finds its place for every interval below half the range exactly if the head of the list is at most three ticks late |
| `TimerRuns.StartSound` | rt-thread/src/timer.c:407-485 | The list stays sorted by deadline, equal deadlines in the order of their starts |
| `TimerRuns.FireDue` | rt-thread/src/timer.c:645-690 | One pass of the loop takes out of the due timers exactly the one fired and those its callback starts, stops or detaches |
| `TimerRuns.CheckMeaning` | rt-thread/src/timer.c:629-695 | With no looping timer due, zero one-shots allowed, and callbacks that start no timer of interval zero, the check ends with no listed timer due; callbacks run once each, by deadline then start, for all due timers but those an earlier callback touched |
| `TimerRuns.IdleEndsIff` | rt-thread/src/timer.c:645-690 | With callbacks that leave timers alone the check ends exactly if no timer that is due is periodic with an interval of zero |
| `TimerRuns.CarefulEndsIff` | rt-thread/src/timer.c:645-690 | With all callbacks that start no timer of interval zero it ends exactly under the same condition |
| `TimerRuns.ZeroNeverEnds` | rt-thread/src/timer.c:645-690 | A due periodic timer with an interval of zero keeps the loop going for any number of passes |
| `TimerRuns.FiresOnTime` | rt-thread/src/clock.c:88-127 | A hard timer fires at the tick that is its deadline, or the next if it was started with an interval of zero, unless an earlier callback of that tick touched it |
| `TimerRuns.FiresAfterInterval` | rt-thread/src/timer.c:407-690 | A timer started with interval n and left alone fires at the n-th tick, at the next for n = 0, whatever other calls and callbacks do |
| `TimerViews.ApplyView` | rt-thread/src/timer.c:407-620 | A command concerns only the timer it names: a start gives it the deadline one interval from now, a stop of an active timer and a detach take it away |
| `TimerViews.CheckView` | rt-thread/src/timer.c:629-695 | Any check that ends does to each timer what callbacks command and what firing means to it, however many timers share the list |
| `TimerViews.FiredMeaning` | rt-thread/src/timer.c:645-690 | A timer that fired and that its own and later callbacks left alone is listed, active and due one interval from now if it is periodic, else unlisted and inactive |
| `TimerViews.FiresEveryInterval` | rt-thread/src/timer.c:407-690 | A periodic timer that is started and left alone fires at exactly the ticks a whole number of intervals from its start, over every run |
| `TimerViews.NeverFires` | rt-thread/src/timer.c:533-690 | A timer that is not listed does not fire in any run that does not start it |
| `TimerViews.SoftView` | rt-thread/src/timer.c:407-485 | With the search of the soft check, too, a command gives the timer it names the right deadline, wherever it is put |
| `TimerViews.SoftFinishView` | rt-thread/src/timer.c:766-780 | After its callback in the soft check a timer is as after its callback in the hard one |
| `TimerRuns.CheckEnded` | rt-thread/src/timer.c:629-695 | Whatever callbacks do, when the check has ended the list is sorted and no listed timer is due |
| `TimerSoft.StartFiledIff` | rt-thread/src/timer.c:407-485 | However late the listed timers are, a start leaves the list sorted exactly if its guard holds, and then does what is meant |
| `TimerSoft.SortedThroughIff` | rt-thread/src/timer.c:715-784 | Through any commands and ticks, as they mix with a soft callback, the list stays sorted exactly if every start meets it with the guard satisfied |
| `TimerSoft.SoftPassIff` | rt-thread/src/timer.c:727-784 | One pass of the soft timer check keeps the list sorted exactly if every start during the callback passes the guard, and so does the restart of a periodic timer |
| `TimerSoft.LateRun` | rt-thread/src/timer.c:447-475 | A run from a sound list, four ticks and a start during one callback, that ends with a list out of order |
| `TimerList.HeadEarliest` | rt-thread/src/timer.c:157-181 | The head of the list has the earliest deadline |
| `TimerList.Timers.Start` | rt-thread/src/timer.c:407-498 | Removal, the search loop with wrapping ticks and the insertion do what the specification says |
| `TimerList.Timers.FindPlace` | rt-thread/src/timer.c:447-475 | The search loop stops before the first timer it takes for one due later, whatever the state of the list |
| `TimerList.Timers.Stop` | rt-thread/src/timer.c:533-556 | Stopping an active timer takes it off whichever list it is on |
| `TimerList.Timers.Check` | rt-thread/src/timer.c:629-695 | The loop with its temporary list, for callbacks that may start, stop, detach and change any timer, their own included, whenever it ends |
| `TimerList.Timers.TickIncrease` | rt-thread/src/clock.c:88-127 | The tick with its check, on a tick value that wraps, whenever the check ends |
| `TimerList.Timers.NextTimeout` | rt-thread/src/timer.c:703-708 | The value returned is the earliest deadline in 32 bits, or RT_TICK_MAX |
| `ReadyBits.FfsLowest` | rt-thread/src/kservice.c:1775-1789 | The table look-up by bytes finds the lowest bit set |
| `ReadyBits.ScanFindsLeast` | rt-thread/src/scheduler.c:169-191 | With the group in agreement the scan finds the least ready priority, and the group is zero exactly if there is none |
| `ReadyBits.RaiseShows` | rt-thread/src/scheduler.c:773-777 | With more than 32 priorities, setting both levels adds exactly the priority |
| `ReadyBits.LowerShows` | rt-thread/src/scheduler.c:858-871 | Clearing the entry, and the group bit once the entry is zero, removes exactly the priority |
| `ReadyBits.HighestIsLeast` | rt-thread/src/scheduler.c:174-179 | The two scans find the least priority of all |
| `ReadyQueue.Queue.InsertThread` | rt-thread/src/scheduler.c:739-782 | In a kernel with 256 priorities list and both bitmap levels change together |
| `ReadyQueue.Queue.RemoveThread` | rt-thread/src/scheduler.c:845-875 | ... and on removal |
| `ReadyQueue.Queue.HighestReady` | rt-thread/src/scheduler.c:169-191 | ... and the two scans find the first thread of the best non-empty list |
| `SchedulerRuns.ScheduleMeaning` | rt-thread/src/scheduler.c:423-545 | With the scheduler unlocked a thread runs that no ready thread beats; a switch happens only if the current thread does not run, is beaten or yields to an equal, and goes to the first of the best |
| `SchedulerRuns.StepKeeps` | rt-thread/src/scheduler.c:739-875 | Every call keeps a thread ready exactly if it is on the one list of its priority |
| `SchedulerRuns.RunKeeps` | rt-thread/src/scheduler.c:423-875 | After any run of calls the agreement holds, and rt_schedule makes the best thread run |
| `SchedulerRuns.YieldAlternates` | rt-thread/src/scheduler.c:444-475 | As written, repeated yields alternate between the running thread and the first ready one for ever, and the rest of the list is never reached |
| `SchedulerRuns.LateYieldRotates` | rt-thread/src/scheduler.c:757-768 | With the flag cleared after the reinsertion the yields go round all threads of the priority |
| `SchedulerRuns.PriorityTopIff` | rt-thread/src/thread.c:732-775 | After a change of priority the best thread still runs exactly if the changed thread is not ready or does not beat the current one, or is the current one and is not beaten |
| `SchedulerCalls.ResumeMeaning` | rt-thread/src/thread.c:885-916 | A suspended thread that is resumed is ready, first among its equals, or runs if it is the current one; nothing else changes |
| `SchedulerCalls.SuspendMeaning` | rt-thread/src/thread.c:840-875 | A running thread that suspends itself is suspended; no list changes |
| `SchedulerCalls.CloseMeaning` | rt-thread/src/thread.c:396-435 | A closed thread leaves its list; the others keep their places |
| `SchedulerCalls.PriorityMeaning` | rt-thread/src/thread.c:732-775 | A ready thread goes from its list to the front of that of its new priority; another only has the priority |
| `SchedulerCalls.StartupMeaning` | rt-thread/src/thread.c:355-385 | A startup is a resume of a thread suspended first, and a rt_schedule |
| `SchedulerCalls.ScheduleEffect` | rt-thread/src/scheduler.c:423-545 | The best ready thread leaves its list and runs; one that was running is ready, first among its equals; no other thread or list changes |
| `SchedulerCalls.ResumedRuns` | rt-thread/src/thread.c:885-916 | A thread that is resumed runs at the next rt_schedule exactly if no ready thread beats it and the current one gives way to it |
| `SchedulerCalls.LockedStays` | rt-thread/src/scheduler.c:921-1013 | While the scheduler is locked no call of a run changes the current thread, and the locks count the nesting |
| `Scheduler.Kernel.InsertThread` | rt-thread/src/scheduler.c:739-782 | The list and the bitmap change together |
| `Scheduler.Kernel.RemoveThread` | rt-thread/src/scheduler.c:845-875 | The list and the bitmap change together |
| `Scheduler.Kernel.HighestReady` | rt-thread/src/scheduler.c:169-191 | The bit scan finds the first thread of the best non-empty list |
| `Scheduler.Kernel.Reschedule` | rt-thread/src/scheduler.c:423-545 | The scheduling decision and the switch do what the specification says |
| `Scheduler.Kernel.Start` | rt-thread/src/thread.c:355-385 | Startup computes the mask, resumes and schedules |
| `Scheduler.Kernel.SuspendSelf` | rt-thread/src/thread.c:840-875 | Suspension of the current thread |
| `Scheduler.Kernel.ResumeThread` | rt-thread/src/thread.c:885-916 | Only a suspended thread is resumed |
| `Scheduler.Kernel.CloseThread` | rt-thread/src/thread.c:396-435 | A closed thread is on no ready list |
| `Scheduler.Kernel.SetPriority` | rt-thread/src/thread.c:732-775 | A ready thread changes lists with its priority; no rescheduling takes place |
| `Scheduler.Kernel.YieldSelf` | rt-thread/src/thread.c:545-558 | A yield sets the flag and schedules |
| `Scheduler.Kernel.EnterCritical` | rt-thread/src/scheduler.c:921-938 | A lock only counts |
| `Scheduler.Kernel.ExitCritical` | rt-thread/src/scheduler.c:985-1013 | The last unlock schedules |
| `MutexRuns.RunSafe` | rt-thread/src/ipc.c:914-1198 | In every interleaving: free, unowned and unheld together; the owner runs at least at the priority of every waiter; waiters queue by priority then arrival; a thread that owns nothing has its own priority, whatever timed out |
| `MutexNesting.ReturnsOkIffOwner` | rt-thread/src/ipc.c:1028-1045 | Whatever threads do, a take that waited returns success exactly when its thread owns the mutex, and then holds it once |
| `MutexNesting.RunOrderly` | rt-thread/src/ipc.c:914-1198 | In every interleaving without any discipline owner, value and hold count agree, no owner waits for what it owns, and each blocked thread waits, was handed the mutex, or timed out |
| `MutexHolds.TakeReturns` | rt-thread/src/ipc.c:940-1045 | A take succeeds at once exactly for a free mutex, or for its owner below the greatest hold count, at which it is refused; else it waits or fails |
| `MutexHolds.TakeMeaning` | rt-thread/src/ipc.c:940-975 | A successful take makes the caller owner with one hold more; a failed one changes no mutex |
| `MutexHolds.WaitMeaning` | rt-thread/src/ipc.c:985-1034 | A take that waits gives the owner exactly the better of the two priorities, and no other thread another; its thread is behind all waiters of its priority or a better one |
| `MutexHolds.ReleaseMeaning` | rt-thread/src/ipc.c:1090-1198 | A release by another thread fails; one by the owner takes one hold, and the last hands the mutex on |
| `MutexHolds.TimeoutMeaning` | rt-thread/src/thread.c:126-155 | A waiter whose time is up leaves the list; no priority changes |
| `MutexHolds.HoldsCounted` | rt-thread/src/ipc.c:914-1198 | In every interleaving without any discipline the holds of a thread are its successful takes, waited ones included, less its successful releases; it owns the mutex exactly while they are more |
| `MutexHolds.MutualExclusion` | rt-thread/src/ipc.c:914-1045 | So until the last matching release no other thread gets the mutex, and a nested take is refused exactly at the greatest hold count |
| `MutexHolds.ForeverSucceeds` | rt-thread/src/ipc.c:1005-1045 | A take that waits without a limit returns success when it returns, in every run |
| `MutexRuns.FinalRelease` | rt-thread/src/ipc.c:1118-1188 | The final release restores the priority and hands the mutex to the waiter of best priority that waited longest |
| `MutexNesting.InversionIff` | rt-thread/src/ipc.c:997-1004 | With a better thread standing by, a call can be followed by a disciplined run into an inversion exactly if it takes a second mutex and gets it or waits for it |
| `MutexNesting.NestedInverts` | rt-thread/src/ipc.c:961-1140 | Take of a second mutex, wait of a better thread for the first, release of the second: the owner of the first is below its waiter |
| `MutexStuck.StuckIff` | rt-thread/src/ipc.c:961-1140 | With a better thread standing by, a call can be followed by a disciplined run to a thread that owns nothing and keeps an inherited priority exactly if it takes a second mutex and waits for it, or gets it at an inherited priority; after any other call every such run gives all priorities back |
| `MutexStuck.BlockedSticks` | rt-thread/src/ipc.c:997-1034 | The owner of a mutex that waits for a second one can inherit, be handed that one, and keep the inherited priority, however many wait before it |
| `MutexStuck.TakenSticks` | rt-thread/src/ipc.c:961-1140 | A thread that takes a free second mutex at an inherited priority can keep it, with no other thread involved |
| `MutexStuck.StuckForGood` | rt-thread/src/ipc.c:914-1198 | Such a thread never gets its own priority back, in any run of any threads |
| `MutexNesting.NestedLosesInheritance` | rt-thread/src/ipc.c:997-1004 | There is a run in which both happen |
| `MutexKernel.Mutexes.Take` | rt-thread/src/ipc.c:914-1034 | Taking step by step does what the specification says, for any thread; a harmless take keeps priority inheritance; the overflow check of a free mutex never fails |
| `MutexKernel.Mutexes.Enqueue` | rt-thread/src/ipc.c:135-161 | The search loop puts a waiter before the first of lower priority |
| `MutexKernel.Mutexes.Release` | rt-thread/src/ipc.c:1090-1198 | Releasing step by step does what the specification says |
| `MutexKernel.Mutexes.Timeout` | rt-thread/src/thread.c:126-155 | A timed-out waiter leaves the wait list with its error set |
| `MutexKernel.Mutexes.Resume` | rt-thread/src/ipc.c:1028-1045 | What the resumed call returns |
| `EventRuns.SendIsReceiving` | rt-thread/src/ipc.c:1461-1519 | A send leaves the state that setting the flags and then calling the receive anew for each waiter, in list order, would leave, CLEAR included |
| `EventRuns.WokenGot` | rt-thread/src/ipc.c:1470-1515 | A resumed thread got some of the flags it wanted, and all if it asked for all |
| `EventRuns.NoneSatisfied` | rt-thread/src/ipc.c:1440-1679 | In every reachable state no waiting thread would be satisfied by the flags that are set |
| `EventRuns.SendKeeps` | rt-thread/src/ipc.c:1440-1530 | A send leaves no satisfied waiter, and fails exactly for an empty set when all waiters ask with AND or OR |
| `EventRuns.RecvMeaning` | rt-thread/src/ipc.c:1582-1679 | A receive succeeds exactly if the flags it asks for are set, whether it may wait or not, gets the wanted flags that are set, and clears those only |
| `EventRuns.SendReturns` | rt-thread/src/ipc.c:1440-1530 | A send fails for an empty set, and when it comes to a waiter without AND and OR, from which on all stay |
| `EventRuns.TimeoutMeaning` | rt-thread/src/thread.c:126-155 | A waiter whose time is up leaves the list with its error; nothing else changes |
| `EventRuns.ResetMeaning` | rt-thread/src/ipc.c:1703-1725 | A reset clears the flags and resumes every waiter with an error |
| `EventObject.Event.Send` | rt-thread/src/ipc.c:1440-1530 | The traversal that resumes threads while it goes does what the specification says, the early return for a waiter without AND and OR included |
| `EventObject.Event.Recv` | rt-thread/src/ipc.c:1565-1679 | The receive does what the specification says |
| `EventObject.Event.Reset` | rt-thread/src/ipc.c:1703-1725 | The reset resumes every waiter with an error |
| `Wakeups.PutSound` | rt-thread/src/ipc.c:2086-2110 | Putting a unit and resuming one waiter loses no wakeup |
| `Wakeups.AwaitSound` | rt-thread/src/ipc.c:2024-2083 | A thread that finds nothing, resumed or not, may wait again |
| `Wakeups.PutMeaning` | rt-thread/src/ipc.c:191-206 | A put resumes the thread that is first in the list and nobody else |
| `Wakeups.AwaitMeaning` | rt-thread/src/ipc.c:122-170 | A thread that waits is at its place, and the others stay in theirs |
| `Wakeups.ExpiredMeaning` | rt-thread/src/thread.c:126-155 | A thread whose time is up leaves the list and nobody is resumed |
| `Wakeups.DeletionLoses` | rt-thread/src/ipc.c:191-206 | Deleting a resumed thread loses its wakeup exactly when the other resumed threads are too few |
| `Semaphore.TokensConserved` | rt-thread/src/ipc.c:484-705 | In every interleaving the first tokens and those of successful releases are the value, those given to threads still inside their call, and those of takes that returned success; no thread waits while there is a token |
| `Semaphore.ReturnsByCause` | rt-thread/src/ipc.c:555-570 | A take that waited returns success exactly if a release gave its thread a token, the timeout error exactly if its time was up, the reset error exactly if a reset found it waiting |
| `Semaphore.TakeReturns` | rt-thread/src/ipc.c:503-564 | A take succeeds at once exactly if there is a token, whether it may wait or not |
| `Semaphore.ReleaseReturns` | rt-thread/src/ipc.c:606-654 | A release fails exactly at the greatest value, and else resumes the first waiter or adds a token |
| `Semaphore.Counter.TryTake` | rt-thread/src/ipc.c:503-564 | The take does what the specification says |
| `Semaphore.Counter.Give` | rt-thread/src/ipc.c:606-654 | The release does what the specification says, the overflow at 65535 included |
| `Semaphore.Counter.Restart` | rt-thread/src/ipc.c:672-705 | The reset fails every waiter in turn and sets the value in 16 bits |
| `Semaphore.Counter.Resume` | rt-thread/src/ipc.c:555-570 | What the resumed call returns |
| `Mailbox.NoneLostInRun` | rt-thread/src/ipc.c:1991-2360 | In every interleaving a thread waits for mail (or room) only while there is no more of it than resumed threads on their way |
| `Mailbox.StepKeeps` | rt-thread/src/ipc.c:1991-2425 | Each section keeps the mails within the size and the counts in agreement |
| `Mailbox.RunIsDeque` | rt-thread/src/ipc.c:1991-2425 | In every interleaving mails, wait lists and results are those of a bounded double-ended queue built from the arguments of the calls |
| `Mailbox.FirstInFirstOut` | rt-thread/src/ipc.c:1991-2360 | Without urgent mails and resets every mail accepted is taken once, in the order of acceptance |
| `Mailbox.OffsetsAgree` | rt-thread/src/ipc.c:2085-2091 | The input offset is the output offset plus the entries modulo the size |
| `Mailbox.MailBox.Send` | rt-thread/src/ipc.c:1991-2120 | The ring buffer appends a mail; the overflow check never fails |
| `Mailbox.MailBox.Urgent` | rt-thread/src/ipc.c:2164-2215 | The ring buffer takes an urgent mail at the front |
| `Mailbox.MailBox.Recv` | rt-thread/src/ipc.c:2245-2366 | The ring buffer gives its first mail |
| `Mailbox.MailBox.Clear` | rt-thread/src/ipc.c:2393-2425 | The reset empties the mailbox and resumes all waiters |
| `QueueRuns.RunKeeps` | rt-thread/src/ipc.c:2749-3271 | In every interleaving of split sends and receives free, queued and in-flight nodes are all the nodes and none is in two places, no wakeup is lost, and the queue is that of a plain double-ended queue |
| `QueueRuns.StepKeeps` | rt-thread/src/ipc.c:2782-3271 | Linking appends a message, taking removes the first, an urgent message enters at the front, and no other step changes what is queued |
| `QueueDelivery.RunIsDeque` | rt-thread/src/ipc.c:2749-3271 | In every interleaving messages, receipts and wait lists are those of a double-ended queue that knows only the arguments of the calls |
| `QueueDelivery.FirstInFirstOut` | rt-thread/src/ipc.c:2749-3215 | Without urgent messages and resets every message sent is received once, in the order of sending |
| `QueueRuns.FillKeeps` | rt-thread/src/ipc.c:2861-2864 | Copying into a node in flight touches no message queued or being received |
| `MessageQueue.Queue.constructor` | rt-thread/src/ipc.c:2516-2533 | The loop puts every node on the free list |
| `MessageQueue.Queue.GrabNode` | rt-thread/src/ipc.c:2770-2859 | A message longer than the message size is refused, then the first section of a send |
| `QueueRuns.OverlaidStarts` | rt-thread/src/ipc.c:2864-3187 | A receiver whose buffer is no longer than the message gets just its first bytes, whatever the node contained before |
| `MessageQueue.Queue.CopyIn` | rt-thread/src/ipc.c:2861-2864 | The copy of a send to the start of its node, between its sections |
| `MessageQueue.Queue.LinkTail` | rt-thread/src/ipc.c:2866-2905 | The second section of a send: head, tail and entry stay in agreement, and the overflow check never fails |
| `MessageQueue.Queue.LinkHead` | rt-thread/src/ipc.c:2999-3030 | The second section of an urgent send |
| `MessageQueue.Queue.TakeNode` | rt-thread/src/ipc.c:3093-3184 | The first section of a receive |
| `MessageQueue.Queue.CopyOut` | rt-thread/src/ipc.c:3187-3187 | Whatever ran meanwhile, the copy gets as many bytes as buffer and message size allow, first those of the message that was first when the node was taken |
| `MessageQueue.Queue.PutBack` | rt-thread/src/ipc.c:3189-3215 | The second section of a receive |
| `MessageQueue.Queue.Reset` | rt-thread/src/ipc.c:3234-3277 | The reset frees every queued node |
| `MemPool.RunKeeps` | rt-thread/src/mempool.c:319-455 | In every interleaving blocks are conserved and no wakeup is lost |
| `MemPool.RunResumesLatest` | rt-thread/src/mempool.c:352-455 | After every run a block given back resumes, of all waiting threads, the one whose wait began last |
| `MemPool.AllocMeaning` | rt-thread/src/mempool.c:319-402 | A thread gets a block exactly if one is free, one that nobody has; a block given back is the next handed out |
| `MemPool.FreeMeaning` | rt-thread/src/mempool.c:415-455 | A release takes back its block and resumes one waiter |
| `MemPool.TimeoutMeaning` | rt-thread/src/thread.c:126-155 | A waiter whose time is up leaves the list; no block moves |
| `MemPool.InitStoresIff` | rt-thread/src/mempool.c:94-132 | The stores of the initialization lie in the area exactly if a block fits and the stride holds a pointer, or the store for block -1 wraps into the area |
| `MemPool.MemoryPool.constructor` | rt-thread/src/mempool.c:110-132 | The loop links all blocks, also when there are none |
| `MemPool.MemoryPool.Allocate` | rt-thread/src/mempool.c:335-402 | Taking a block from the list through the blocks |
| `MemPool.MemoryPool.Release` | rt-thread/src/mempool.c:415-455 | Giving a block back |
| `TimedWait.LeftExact` | rt-thread/src/ipc.c:2075-2082 | The 32-bit arithmetic leaves what true time leaves exactly as long as the thread runs again within 2^31 ticks of its deadline |
| `TimedWait.Retry` | rt-thread/src/mempool.c:335-388 | Every wait of a timed call on a memory pool ends at the first deadline, moved only by ticks between reading the clock and waiting again; it gives up exactly when resumed at the deadline or later |
| `TimedWait.RetryLocked` | rt-thread/src/ipc.c:2024-2083 | In the mailbox and the message queue every wait ends at the first deadline, however often the thread is resumed in vain, and the call gives up at the first wakeup at the deadline or later |
| `WcsPaths.FindMeaning` | rt-thread/tools/WCS.py:84-99 | The function found has the name and is seen from the translation unit, a local one only without a global one; none exactly if none is seen |
| `WcsPaths.BadCallee` | rt-thread/tools/WCS.py:266-289 | A function is unbounded exactly when it calls through a pointer or calls an unbounded one, cycles through itself included |
| `WcsPaths.WorstCallee` | rt-thread/tools/WCS.py:275-299 | The worst use is the greatest of the callees and the own stack |
| `WcsPaths.MissingCallee` | rt-thread/tools/WCS.py:294-296 | A missing name is the own or one of a callee |
| `Wcs.Analysis.ResolveAllCalls` | rt-thread/tools/WCS.py:223-242 | Every call is found, or listed as unresolved, as the lookup decides |
| `Wcs.Analysis.CalcWcs` | rt-thread/tools/WCS.py:246-299 | The memoised search records only right results, overwrites none, and leaves the entries of the functions being searched alone |
| `Wcs.Analysis.Callees` | rt-thread/tools/WCS.py:275-297 | The loop over the callees gathers the maximum and the missing names |
| `Wcs.Analysis.Run` | rt-thread/tools/WCS.py:223-299 | For every function: unbounded exactly if a pointer call or a recursion is reachable without passing a function sized by hand, else the maximum over call paths, and the union of the missing names |

## Left out

- MemHeap.MemoryHeap.constructor: requires a pool that holds two headers, as the source stores outside the pool otherwise (`MemHeap.InitFitsIff`).
- MemHeap.MemoryHeap.Realloc: headers at different addresses are separate, so that of the stores of an overrun only the wrong links and marks are modelled, not that a header also overwrites part of another.
- The payload bytes of the slab allocator, and with them `rt_slab_realloc`.
- MemPool.MemoryPool.constructor: block numbers stand for offsets; that the stores of the source are those of the blocks, and lie in the area, is `MemPool.InitStoresIff`.
- Slab.SlabHeap.constructor: starts from memory that is already aligned and a usage table that already has its pages; the choice of the zone size is a parameter.
- MutexRuns.RunSafe: holds for threads that take no second mutex while they hold one and whose priorities nobody else changes; what holds without that is `MutexNesting.RunOrderly`, and what is lost `MutexNesting.InversionIff` and `MutexStuck.StuckIff`.
- MutexNesting.InversionIff: later calls are disciplined and a better thread stands by; which inversions several undisciplined takes together lead to is not characterized.
- MutexStuck.StuckIff: the same holds for priorities that are kept.
- TimerRuns.CheckMeaning: callbacks start no timer whose interval is zero at that time. For other callbacks, when the check ends, `TimerRuns.CheckEnded` says what it leaves.
- TimerList.Timers.Start: one timer list is modelled, and a start of a soft timer does not resume the timer thread.
- TimerSoft.SoftPassIff: of the soft timer check its list and one pass of its loop are modelled; the timer thread with its waiting for the next deadline is not.
- The statistics `used` and `max` of the slab allocator, and the semaphore lock of the memory heap.
- The null stores into `next_free` and `prev_free` of a block handed out by the memory heap, and the reset of the magic word of a spare zone: nothing reads them.
- Deleting and detaching IPC objects, and deleting threads that wait for them; `Wakeups.DeletionLoses` says what a deletion would lose.
- Thread stacks, context switches, time slice counting, signals, hooks, memory tracing, debug output, and the SMP variants.
- Reading object files, RTL and stack usage files for the stack analysis: the call graph is the input of the model. Two dictionaries are taken to be the same function only if they are the same entry.
- Device drivers, object management, formatting and the shell.
