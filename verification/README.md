# RT-Thread kernel and build tools: a verified model

This project models the parts of RT-Thread 4.0.3 in which several functions share one
intricate data structure, and proves what those functions maintain together. It covers the
uniprocessor configuration: every section with interrupts disabled, and every section under a
heap's semaphore, is one atomic step, and threads interleave freely between steps.

| area | files | what is proved |
|---|---|---|
| Lists | `IntrusiveList` | the circular intrusive lists, on references: each operation takes a ring of nodes to the ring named by the sequence operation |
| Timers | `Ticks`, `TimerQueue`, `TimerEnding`, `TimerFiring`, `TimerEffects`, `TimerSkipList` | a skip list ordered by a wrapping 32-bit tick refines one list sorted by true expiry; every timer fires in the first check at or after its expiry, over unbounded time; exactly when a check ends |
| Small-memory heap | `HeapSpec`, `HeapTheorems`, `HeapEffects`, `HeapMemory`, `HeapScan` | the chain of block headers tiles the heap through every run, live ranges are disjoint, first fit, what happens to `lfree`, exactly when the scan ends, and no user byte is lost |
| Memory heap | `MemHeapSpec`, `MemHeapRuns`, `MemHeapEffects`, `MemHeapObject` | block list and free list agree through allocation, freeing and both in-place reallocations; what a caller is left with after each, and exactly when they fail |
| Slab | `PageRuns`, `PageList`, `SlabClasses`, `SlabZones`, `Slab`, `SlabEffects`, `SlabHeap` | the page list is the unique list of maximal runs; zones, lists, page table and counters agree through every interleaving; every allocation stays put until it is freed itself |
| Memory pool, mailbox, message queue | `WaitGate`, `MemPool`, `Mailbox`, `MessageQueueSpec`, `MessageQueue` | no lost wakeup under barging, timeouts and resets; nodes and blocks are conserved; delivery is first in, first out |
| Mutex, event | `Mutex`, `Event` | priority inheritance; nobody sleeps whose condition is met; a woken receiver gets what an immediate receive would give |
| Scheduler | `Bitmap`, `Scheduler`, `ReadyQueue`, `RoundRobin` | the ready bitmap mirrors the ready lists; rescheduling picks the most urgent thread; the exact waiting time of round robin |
| Kconfig | `KconfigExpr`, `KconfigValues`, `KconfigLaws`, `KconfigTheorems`, `KconfigLocality`, `KconfigDeps`, `KconfigCache`, `KconfigStale` | printing and parsing preserve meaning; each value obeys a law that no other value obeys; the incremental value cache always equals evaluation from scratch |
| ROM image | `RomImage` | following the addresses of the binary image recovers the directory tree |

Each protocol is a datatype with step functions (what one call or one critical section does),
an invariant, and lemmas over single steps, whole runs and all reachable states. Code that
updates fields in place is a class whose methods carry the loops and stores of the source and
are proved to take the abstract state to the one the step function gives. What each step does
is also stated on its own, as a relation between the states before and after that names no step
function (the `Effect` lemmas, and those of the `Effects` modules). `Options`, `Lists` and
`Numbers` hold shared vocabulary.

Some of what one would expect of this code is false. In those cases the code is kept as it is,
one lemma (or run) exhibits the failure, and another gives the exact condition:

- After a shrinking `rt_realloc`, `lfree` need no longer be the lowest free block: one malloc
  and one realloc show it (`HeapTheorems.ReallocLosesLowest`). A call loses the property if and
  only if it shrinks a block in place with `lfree` neither below the block nor right behind it
  (`HeapTheorems.StepInv`, `HeapTheorems.ShrinkLowest`).
- The whole of a new heap cannot be allocated although it is free
  (`HeapTheorems.ExactFitMissed`): the strict scan bound excludes a fitting block if and only if
  its data would end at `heap_end` (`HeapTheorems.BoundMeaning`).
- In a heap smaller than the minimal block the scan of `rt_malloc` never ends
  (`HeapScan.TinyHeapScanNeverEnds`); for an accepted request it ends if and only if there is
  room for a minimal block (`HeapScan.ScanEndsExactly`).
- A periodic timer of zero ticks never lets `rt_timer_check` end
  (`TimerEnding.ZeroPeriodNeverEnds`); the check ends if and only if no expired timer is active
  and periodic with zero ticks (`TimerEnding.EndsExactly`).
- A one-shot timer that restarts itself from its timeout function is linked but not flagged
  active, and `rt_timer_stop` refuses it (`TimerFiring.RestartedOneShotCannotBeStopped`);
  `TimerFiring.FireAgreement` says exactly when firing keeps the two in step.
- Handing over a FIFO mutex can leave a more urgent thread waiting behind its owner
  (`Mutex.FifoInversion`); `Mutex.FifoHandOver` says exactly when it does not.
- An int or hex symbol's value is within its active range if and only if that range is not
  empty (`KconfigTheorems.NumberInRange`); when it is, the value is clamped to one of its bounds.
- A choice default outside its choice leaves a stale selection: set, read, reset, read shows it
  (`KconfigStale.StaleSelection`). Invalidating an item takes another along if and only if the
  other is the item itself or mentions it, or the item is MODULES
  (`KconfigDeps.ReachesExactly`), a choice's values depend only on items that reach it if and
  only if its defaults do (`KconfigDeps.ReadsNear`), and under that condition every read is
  right (`KconfigCache.Kconfig.Run`). That a default which does not reach its choice is ever
  evaluated depends on the rest of the configuration, so the converse is not stated for runs.

Where documentation and code differ the code is followed: `rt_malloc` of `src/slab.c`
announces a preference for freed chunks, but takes never-used ones first, and so does the model.

## Model

| member | source | states |
|---|---|---|
| `IntrusiveList.ListNode.constructor` | include/rtservice.h:47-50 | an initialized node is a ring of its own |
| `IntrusiveList.RingUnique` | include/rtservice.h:47-50 | the pointers alone determine the contents of a list: two rings through the same head are equal |
| `IntrusiveList.InsertAfter` | include/rtservice.h:58-65 | the ring gains the node right behind the given one, also when the ring is the head alone |
| `IntrusiveList.InsertBefore` | include/rtservice.h:73-80 | the ring gains the node right in front of the given one; in front of the head means at the end |
| `IntrusiveList.Remove` | include/rtservice.h:86-92 | the ring loses exactly this node, which becomes a ring of its own, so removing it again is harmless |
| `IntrusiveList.IsEmpty` | include/rtservice.h:98-101 | true exactly when the head is alone |
| `IntrusiveList.Length` | include/rtservice.h:107-119 | terminates with the number of nodes besides the head |
| `Ticks.WrapDifference` | src/timer.c:368-372 | the 32-bit difference of two wrapped ticks is the wrapped true difference |
| `Ticks.WindowOrder` | src/timer.c:368-375 | within half the tick range the wrapped comparison decides equality and order of the true times |
| `Ticks.WindowIsSharp` | src/timer.c:525 | one tick beyond either end of that window the comparison is wrong |
| `TimerQueue.DoKeepsInv` | src/timer.c:305-494 | start, stop and control keep the list sorted by true expiry, duplicate free and within the comparison window |
| `TimerQueue.CheckUnfolds` | src/timer.c:516-556 | whatever the timeout functions do, a check that ends fires its head and goes on, and stops when the head is in the future: its result does not depend on how its end is found |
| `TimerQueue.EveryFiringTimely` | src/timer.c:503-556 | in every run whose checks end, no timer fires before its expiry, none later than the first check at or after it, and firings come in expiry order |
| `TimerQueue.CheckServes` | src/timer.c:503-556 | in every check that ends, a timer no callback touches stays linked if its time has not come and fires exactly if it has, whatever callbacks do to other timers |
| `TimerQueue.FiresAtFirstCheck` | src/clock.c:72-100 | over unbounded time and any number of tick wrap-arounds, a linked timer that nobody touches fires in the first check at or after its true expiry and not before |
| `TimerEffects.StartEffect` | src/timer.c:305-402 | a start makes the timer active, to expire its period from now, and puts it behind all that expire no later and before all that expire later; no other timer changes, nor their order |
| `TimerEffects.StopEffect` | src/timer.c:431-456 | a stop takes an active timer out of the list, and nothing else; of an inactive one it changes nothing |
| `TimerEffects.ControlEffect` | src/timer.c:468-494 | a control command changes the period only, or the mode only; a linked timer keeps its place and expiry |
| `TimerEffects.PeriodLasts` | src/timer.c:332-333 | over any run of ticks, callbacks and commands that do not set it, a period lasts: the next start expires that many ticks from then |
| `TimerEffects.FiringEffect` | src/timer.c:525-552 | a timer its callback leaves alone is linked again one period later if it is periodic and active, and else inactive and unlinked; all others stay |
| `TimerEnding.StuckForever` | src/timer.c:541-547 | with an expired, active, periodic timer of zero ticks that no callback names, the loop has not ended after any number of firings, whatever the other callbacks do |
| `TimerEnding.FireCost` | src/timer.c:516-556 | otherwise every firing brings the end closer, also when callbacks start timers of zero ticks, as long as no callback leads back to itself that way |
| `TimerEnding.EndsExactly` | src/timer.c:503-556 | for such callbacks the check ends if and only if no expired timer is active and periodic with zero ticks |
| `TimerEnding.OrdinaryTame` | src/timer.c:533 | callbacks that touch no timer, or only timers of at least one tick, are such callbacks |
| `TimerEnding.ZeroPeriodNeverEnds` | src/timer.c:541-547 | a timer started with a period of zero ticks makes the check of the next tick spin |
| `TimerFiring.FiredInListOrder` | src/timer.c:516-556 | of the timers that no callback names, a check that ends fires exactly the expired ones, once each, in list order |
| `TimerFiring.FiresOnlyExpired` | src/timer.c:516-556 | if callbacks start no timer of zero ticks, one check fires only timers that had expired when it began, in list order |
| `TimerFiring.DoKeepsAgree` | src/timer.c:402-456 | start, stop and control keep "linked iff flagged active" |
| `TimerFiring.FireAgreement` | src/timer.c:529-552 | firing keeps "linked iff flagged active" if and only if the timer ends up periodic or its timeout function does not leave it started |
| `TimerFiring.RestartedOneShotCannotBeStopped` | src/timer.c:533-552 | a one-shot timer that restarts itself is linked, yet rt_timer_stop leaves it linked |
| `TimerSkipList.NestedMeansSubsequence` | src/timer.c:351-379 | the nesting invariant makes every row a subsequence of the row below |
| `TimerSkipList.InsertAtPos` | src/timer.c:363-371 | stopping behind all timers that expire no later is stable sorted insertion: equal timeouts keep start order |
| `TimerSkipList.PosUnique` | src/timer.c:354-376 | the stopping point of the search is the only split into no-later and later expiries |
| `TimerSkipList.TimerSystem.constructor` | src/timer.c:688-696 | empty rows of any number of levels, satisfying the invariant |
| `TimerSkipList.TimerSystem.RemoveFromRows` | src/timer.c:130-138 | the timer is gone from every row and nothing else changes |
| `TimerSkipList.TimerSystem.WalkRow` | src/timer.c:354-376 | comparing wrapped ticks, the walk stops at the true sorted position of the row |
| `TimerSkipList.TimerSystem.NextRow` | src/timer.c:377-378 | dropping one row down never skips a timer that expires later |
| `TimerSkipList.TimerSystem.FindPositions` | src/timer.c:351-379 | the nested search finds the sorted position in every row |
| `TimerSkipList.TimerSystem.InsertIntoRows` | src/timer.c:385-400 | for every value of the insertion counter rows stay nested, and the bottom row gets the stable sorted insertion |
| `TimerSkipList.TimerSystem.Start` | src/timer.c:305-402 | refines removal followed by stable insertion in one list sorted by true expiry |
| `TimerSkipList.TimerSystem.Stop` | src/timer.c:431-456 | refines removal from the list; refused exactly when the timer is not flagged active |
| `TimerSkipList.TimerSystem.Control` | src/timer.c:468-494 | new period or mode take effect at the next start only; the list is untouched |
| `TimerSkipList.TimerSystem.CallTimeout` | src/timer.c:533 | whatever timers the timeout function starts, stops or sets, the rows keep refining the sorted list |
| `TimerSkipList.TimerSystem.FireOne` | src/timer.c:525-552 | unlinking, calling and restarting refine one abstract firing |
| `TimerSkipList.TimerSystem.Check` | src/timer.c:503-556 | whenever firing the abstract head comes to an end, the loop over the skip list does so too, with the same result |
| `TimerSkipList.TimerSystem.TickIncrease` | src/clock.c:72-100 | one tick and one check that ends; afterwards no linked timer is overdue |
| `TimerSkipList.TimerSystem.NextTimeout` | src/timer.c:108-128 | the earliest true expiry of all linked timers, or RT_TICK_MAX if there is none |
| `HeapSpec.PlugHolesInv` | src/mem.c:156-194 | around one free block with free neighbours, coalescing restores the full heap invariant |
| `HeapSpec.FreeInv` | src/mem.c:579-607 | freeing keeps the gap-free chain, no two adjacent free blocks, lfree at a free block or heap_end, and used_mem the sum of used spans, at most max_mem |
| `HeapSpec.TakeInv` | src/mem.c:311-387 | allocating from a free block, split or whole, keeps that invariant |
| `HeapSpec.ShrinkInv` | src/mem.c:471-497 | the in-place shrink keeps that invariant |
| `HeapTheorems.LiveDisjoint` | src/mem.c:390-403 | user ranges are aligned, non-empty, inside the heap, and two different ones never overlap |
| `HeapTheorems.FreeLive` | src/mem.c:546-609 | the set of live blocks loses exactly the freed one |
| `HeapTheorems.TakeLive` | src/mem.c:311-403 | the set of live blocks gains exactly the new one |
| `HeapTheorems.ShrinkLive` | src/mem.c:471-497 | exactly one live block changes, and only in its end |
| `HeapTheorems.FirstFitIsFirst` | src/mem.c:305-311 | the scan stops at the first fitting block below its strict bound, and fails only if there is none |
| `HeapTheorems.BoundMeaning` | src/mem.c:305-307 | the strict bound excludes precisely the fitting blocks whose data would end at heap_end |
| `HeapTheorems.ScanFindsLowest` | src/mem.c:305-311 | starting at lfree rather than at the bottom finds the lowest candidate of all blocks from lfree on |
| `HeapTheorems.MallocFirstFit` | src/mem.c:272-410 | rt_malloc succeeds exactly if a candidate exists, takes the lowest, hands out at least the requested bytes, and otherwise changes nothing |
| `HeapTheorems.MallocInv` | src/mem.c:272-410 | every request, zero and too large included, keeps the invariant and every live pointer live |
| `HeapEffects.MallocGains` | src/mem.c:272-410 | a successful allocation adds one block, where nothing was live, that holds the request and is not larger than a split would leave it |
| `HeapEffects.MallocFailsIff` | src/mem.c:272-410 | an allocation of more than nothing fails if and only if it is too large or there is no candidate; then nothing has changed |
| `HeapEffects.FreeLoses` | src/mem.c:546-609 | a release takes away the caller's block and no other; so does a reallocation to nothing |
| `HeapEffects.ReallocExchanges` | src/mem.c:421-510 | after a successful reallocation there is, instead of the old block, one of the wanted size at the address returned, which is the old address or one where nothing was live; everyone else's block is as it was |
| `HeapEffects.NullExchanges` | src/mem.c:445-447 | reallocating RT_NULL is an allocation |
| `HeapEffects.ReallocFailsIff` | src/mem.c:421-510 | a reallocation to more than nothing fails if and only if it is too large, or the block cannot serve in place and there is no candidate, and then nothing has changed; a pointer from elsewhere comes back unchanged |
| `HeapTheorems.TakeLowest` | src/mem.c:380-387 | allocation keeps lfree the lowest free block or heap_end |
| `HeapTheorems.FreeLowest` | src/mem.c:596-607 | freeing keeps lfree the lowest free block |
| `HeapTheorems.ShrinkLowest` | src/mem.c:471-497 | the shrink keeps lfree lowest if and only if lfree lies below the block or is the free block right behind it |
| `HeapTheorems.ReallocLosesLowest` | src/mem.c:471-497 | on a new heap, one malloc and one shrinking realloc leave lfree above a free block |
| `HeapTheorems.ReallocLowest` | src/mem.c:421-510 | over all its paths, rt_realloc keeps lfree lowest if and only if it does not shrink in place, or lfree lies below the block or right behind it |
| `HeapTheorems.ExactFitMissed` | src/mem.c:305-307 | on every new heap the request for all of it fails, although it is free and large enough |
| `HeapScan.RoomyEnds` | src/mem.c:305-307 | with room for a minimal block, the walk along next fields ends within the blocks left, from any header |
| `HeapScan.TinyRound` | src/mem.c:305-311 | without it, every header, heap_end included, is below the wrapped bound and fits nothing, and heap_end leads to itself |
| `HeapScan.ScanEndsExactly` | src/mem.c:298-311 | for every accepted request, alignment, header and minimal size, the scan ends if and only if there is room for a minimal block |
| `HeapScan.FreshScanEnds` | src/mem.c:204-257 | on an initialized heap it ends for all accepted requests if and only if there is room for a minimal block or for nothing |
| `HeapScan.TinyHeapScanNeverEnds` | src/mem.c:298-311 | a heap of eight bytes on a 32-bit machine, on which the request for one byte spins |
| `HeapTheorems.FreeUndoesTake` | src/mem.c:546-609 | freeing what was just allocated restores chain, lfree and used_mem exactly |
| `HeapTheorems.ReallocInv` | src/mem.c:421-510 | every path of rt_realloc keeps the invariant |
| `HeapTheorems.StepInv` | src/mem.c:272-609 | every legal call keeps the invariant, and keeps lfree lowest if and only if it is not a shrink in place with lfree neither below the block nor right behind it |
| `HeapTheorems.InitialInv` | src/mem.c:204-257 | the initialized heap satisfies both |
| `HeapTheorems.RunInv` | src/mem.c:204-609 | every run of malloc, free and realloc keeps the invariant; runs without such a shrink, malloc/free-only runs among them, keep lfree lowest |
| `HeapMemory.SmallHeap.constructor` | src/mem.c:204-257 | two headers represent the one-block chain, for areas of any size |
| `HeapMemory.SmallHeap.PlugForward` | src/mem.c:165-180 | the header stores represent merging with the right neighbour; all live bytes stay |
| `HeapMemory.SmallHeap.PlugBackward` | src/mem.c:182-193 | the header stores represent merging with the left neighbour; all live bytes stay |
| `HeapMemory.SmallHeap.PlugHoles` | src/mem.c:156-194 | refines coalescing on the chain and re-establishes validity of headers, lfree and counters |
| `HeapMemory.SmallHeap.Free` | src/mem.c:546-609 | refines freeing, and ignores RT_NULL; every remaining live range keeps its bytes |
| `HeapMemory.SmallHeap.Scan` | src/mem.c:305-311 | following next fields from lfree terminates and finds what the abstract first fit finds |
| `HeapMemory.SmallHeap.Carve` | src/mem.c:316-370 | headers and used_mem represent the split, or the block taken whole; live bytes stay |
| `HeapMemory.SmallHeap.AdvanceFree` | src/mem.c:380-387 | the loop terminates at the next free block of the chain or at heap_end |
| `HeapMemory.SmallHeap.TakeBlock` | src/mem.c:311-387 | refines allocation from the found block |
| `HeapMemory.SmallHeap.Malloc` | src/mem.c:272-410 | whenever its scan ends, refines the first-fit allocation with its error cases; every live range keeps its bytes |
| `HeapMemory.SmallHeap.Copy` | src/mem.c:505 | the target range equals the old source range, and no other byte changes |
| `HeapMemory.SmallHeap.CutBlock` | src/mem.c:473-491 | header stores and used_mem represent the cut; live bytes stay |
| `HeapMemory.SmallHeap.ShrinkBlock` | src/mem.c:471-497 | the block keeps its first bytes up to the new size in place, everything live keeps its bytes |
| `HeapMemory.SmallHeap.Move` | src/mem.c:499-509 | on success the new range starts with the smaller number of old bytes; on failure heap and live bytes are unchanged |
| `HeapMemory.SmallHeap.Realloc` | src/mem.c:421-510 | over all paths (too large, zero, null, outside the heap, same size, shrink, move): the first min(old, new) bytes survive and no other live range loses a byte |
| `MemHeapSpec.TakeInv` | src/memheap.c:182-258 | blocks tile the pool, the free list holds each free block once and nothing else, no two free blocks are neighbours, available_size is the sum of free sizes, max_used_size bounds use: kept by allocation |
| `MemHeapSpec.ReleaseInv` | src/memheap.c:535-591 | the same invariant is kept by freeing with left, right, both or no merge |
| `MemHeapSpec.GrowInv` | src/memheap.c:334-402 | the same invariant is kept by growing into the free right neighbour |
| `MemHeapSpec.ShrinkInv` | src/memheap.c:432-485 | the same invariant is kept by shrinking in place, with or without a free block behind |
| `MemHeapRuns.SearchFinds` | src/memheap.c:169-180 | the free-list walk returns a large enough free block if there is one |
| `MemHeapRuns.AllocInv` | src/memheap.c:138-281 | every request keeps the invariant |
| `MemHeapRuns.AllocFailsIff` | src/memheap.c:155-183 | allocation fails if and only if the strict guard on available_size stops it or no free block is large enough |
| `MemHeapRuns.AllocGives` | src/memheap.c:182-270 | the block handed out was free, is at least as large as asked for, and every used block is still there |
| `MemHeapRuns.ReleaseUndoesTake` | src/memheap.c:535-591 | freeing what was just allocated restores the block list and the available size |
| `MemHeapRuns.ReleaseKeeps` | src/memheap.c:535-591 | freeing keeps every other used block |
| `MemHeapRuns.ReleaseTakes` | src/memheap.c:535-591 | every used block after freeing was there before and is not the freed one |
| `MemHeapRuns.RecutKeeps` | src/memheap.c:334-485 | resizing in place moves the end of this block and keeps every other used block |
| `MemHeapRuns.LiveDisjoint` | src/memheap.c:263-270 | user ranges of different blocks do not overlap |
| `MemHeapRuns.ReallocInv` | src/memheap.c:284-492 | every path of rt_memheap_realloc keeps the invariant; what it hands out is in `MemHeapEffects.ReallocExchanges` and `MemHeapEffects.ReallocFailsIff` |
| `MemHeapRuns.ReallocFailure` | src/memheap.c:408-416 | a failed reallocation leaves the heap exactly as it was |
| `MemHeapEffects.AllocGains` | src/memheap.c:182-270 | a successful allocation adds one block, where nothing was in use, that holds the request and is not larger than a split would leave it |
| `MemHeapEffects.FreeLoses` | src/memheap.c:495-595 | a release takes away the caller's block and no other block in use; so does a reallocation to nothing |
| `MemHeapEffects.ReallocExchanges` | src/memheap.c:284-492 | after a successful reallocation there is, instead of the old block, one of the wanted size at the address returned, which is the old address or one where nothing was in use; everyone else's block is as it was |
| `MemHeapEffects.NullExchanges` | src/memheap.c:305-308 | reallocating RT_NULL is an allocation |
| `MemHeapEffects.ReallocOwns` | src/memheap.c:284-492 | whatever pointer a reallocation returns belongs to a block in use that holds the request |
| `MemHeapEffects.ReallocFailsIff` | src/memheap.c:334-416 | a reallocation to more than nothing fails if and only if neither the block nor its free right neighbour can serve in place and no other block can be had; then nothing has changed |
| `MemHeapRuns.StepInv` | src/memheap.c:138-595 | every operation keeps the invariant |
| `MemHeapRuns.Reachable` | src/memheap.c:50-595 | every reachable state satisfies the invariant |
| `MemHeapRuns.InitialInv` | src/memheap.c:62-111 | the initialized heap satisfies it |
| `MemHeapObject.RewireLinked` | src/memheap.c:209-213 | rewriting at most three headers represents replacing a row of blocks, circular next and prev included |
| `MemHeapObject.StaleHeaders` | src/memheap.c:549-573 | headers left inside merged blocks do not matter |
| `MemHeapObject.MemHeap.constructor` | src/memheap.c:50-121 | the two initial headers represent the initial state |
| `MemHeapObject.MemHeap.Allocate` | src/memheap.c:138-281 | the headers, free list and counters after rt_memheap_alloc represent the abstract allocation |
| `MemHeapObject.MemHeap.TakeBlock` | src/memheap.c:187-258 | split or whole, they represent the taken block |
| `MemHeapObject.MemHeap.Free` | src/memheap.c:495-595 | they represent the abstract release; RT_NULL is ignored |
| `MemHeapObject.MemHeap.MergeLeft` | src/memheap.c:540-557 | the left merge happens exactly if the left neighbour is free, and leaves one free block over both spans |
| `MemHeapObject.MemHeap.MergeRight` | src/memheap.c:559-578 | the right merge happens exactly if the right neighbour is free, and leaves one free block over both spans |
| `MemHeapObject.MemHeap.GrowBlock` | src/memheap.c:350-397 | they represent the abstract growth |
| `MemHeapObject.MemHeap.ShrinkBlock` | src/memheap.c:432-485 | they represent the abstract shrink |
| `MemHeapObject.MemHeap.Reallocate` | src/memheap.c:284-492 | zero sizes, RT_NULL, growing, moving, keeping and shrinking all represent the abstract reallocation; a returned pointer belongs to a block that holds the request, and on failure nothing has changed |
| `PageRuns.CanonicalUnique` | src/slab.c:236-322 | there is only one sorted list of maximal runs for a set of free pages |
| `PageRuns.AllocTakes` | src/slab.c:236-270 | the pages handed out were free, exactly they leave the free set, the count drops by them, and the list stays canonical |
| `PageRuns.AllocFailsIff` | src/slab.c:246-264 | allocation fails if and only if nowhere n free pages lie side by side |
| `PageRuns.FreeGives` | src/slab.c:272-322 | exactly the given pages join the free set, the count grows by them, and the list stays canonical |
| `PageRuns.FreeUndoesAlloc` | src/slab.c:236-322 | freeing what was just allocated restores the identical list |
| `PageList.Spliced` | src/slab.c:246-263 | redirecting one link and writing one header represents replacing runs in the list |
| `PageList.PageHeap.PageAlloc` | src/slab.c:236-270 | the linked run headers represent the abstract allocation; null exactly on failure, with nothing changed |
| `PageList.PageHeap.PageFree` | src/slab.c:272-322 | the linked run headers represent the abstract free |
| `PageList.PageHeap.GrowUp` | src/slab.c:291-300 | appending to the run in front, and closing the gap to the next one, represents the abstract free |
| `PageList.PageHeap.GrowDown` | src/slab.c:302-309 | joining the run behind represents the abstract free |
| `SlabClasses.ClassFits` | src/slab.c:401-459 | the chunk holds the request and wastes less than 8 bytes or less than an eighth of the request |
| `SlabClasses.ClassIndex` | src/slab.c:401-459 | the index is below 72 and determines the chunk size, a multiple of 8, so all zones under one index have equal chunks |
| `SlabZones.NewZoneOk` | src/slab.c:625-648 | a new zone's chunks lie inside its pages, exactly one is in use, and at least one is free |
| `SlabZones.TakeOk` | src/slab.c:543-568 | a zone with free chunks yields one that was not in use, also when never-used chunks are gone |
| `SlabZones.PutOk` | src/slab.c:830-842 | the returned chunk, and no other, becomes free |
| `SlabZones.AllFree` | src/slab.c:854-855 | a free count equal to the number of chunks means none is in use |
| `Slab.FromZoneInv` | src/slab.c:539-577 | allocating from a listed zone keeps the whole invariant and yields a chunk that was not live |
| `Slab.OpenZoneInv` | src/slab.c:587-659 | turning a held block into a zone keeps the invariant |
| `Slab.FreeChunkInv` | src/slab.c:822-903 | freeing a chunk, with relisting and retiring of zones, keeps the invariant; that the chunk is gone is in `SlabEffects.StepEffect`, what becomes of its zone in `SlabEffects.FreeChunkFate` |
| `Slab.RetiredInv` | src/slab.c:854-891 | moving a wholly free zone to the pool of idle zones, or towards the page allocator, keeps the invariant |
| `Slab.LargeInv` | src/slab.c:501-520 | recording a large allocation keeps the invariant |
| `Slab.FreeLargeInv` | src/slab.c:797-820 | giving up a large allocation keeps the invariant |
| `Slab.PageAllocInv` | src/slab.c:236-270 | page allocation between the heap's critical sections keeps the invariant |
| `Slab.PageFreeInv` | src/slab.c:272-322 | page release between the heap's critical sections keeps the invariant |
| `Slab.StepInv` | src/slab.c:478-904 | every critical section of every operation keeps it: free runs and blocks disjoint, zones well formed, listed exactly when they have free chunks, page table right, live allocations accounted for, used_mem their sum, at most max_mem; and the pages in runs and blocks stay the same, so none is lost |
| `Slab.Reachable` | src/slab.c:478-904 | every state reachable by any interleaving of these sections satisfies it and has the same pages |
| `Slab.InitialInv` | src/slab.c:344-395 | the initialized slab satisfies it, after the memory-usage table took its pages, and its pages are those of the heap |
| `Slab.OnePlace` | src/slab.c:236-322 | each of these pages is either free or in exactly one block |
| `Slab.ChunkAligned` | src/slab.c:631-648 | a power-of-two chunk lies at a multiple of its size behind its zone's start, and at a multiple of its size or the page size, whichever is smaller |
| `Slab.ChunksPartitioned` | src/slab.c:543-568 | each chunk of a zone is exactly one of never used, freed, live; z_nfree counts the first two |
| `Slab.InsideBlock` | src/slab.c:640-648 | a live allocation lies inside the pages of its zone or large block |
| `Slab.LiveDisjoint` | src/slab.c:478-667 | live allocations never share a byte |
| `Slab.LookupFinds` | src/slab.c:795-827 | from the page an allocation starts in, the table leads back to its zone, or to the length of its large block |
| `SlabEffects.StepEffect` | src/slab.c:478-904 | a request for a chunk misses if and only if it is large, or no zone of its size has a chunk and no zone is idle; a chunk, zone or large block handed out was not live, is large enough, and is all that the allocations gain; a release takes away exactly the chunk or large block named, which is live no more, and used_mem drops by its size; pages move between runs and blocks as asked, and page allocation fails if and only if no run is long enough |
| `SlabEffects.FreeChunkFate` | src/slab.c:830-891 | a zone goes on with the freed chunk in front, unless it was its last one out and another zone can serve the size; then it is kept idle, or given up if two are |
| `SlabEffects.LastOne` | src/slab.c:854-855 | the count of free chunks reaches z_nmax if and only if no other chunk of the zone is handed out |
| `SlabEffects.AddressFixed` | src/slab.c:543-568 | address and liveness of an allocation follow from what is recorded of it |
| `SlabEffects.StaysPut` | src/slab.c:478-904 | in every run an allocation keeps its address and size, whatever others do, until it is freed itself |
| `Slab.CreditTally` | src/slab.c:570-574 | used_mem stays the sum of the live allocations' rounded sizes when one is added |
| `Slab.DebitTally` | src/slab.c:834-836 | and when one is removed |
| `SlabHeap.SlabGlobals.Malloc` | src/slab.c:523-659 | the first section of a small request represents the abstract step; a chunk handed out was not live and is large enough |
| `SlabHeap.SlabGlobals.FromList` | src/slab.c:539-577 | the chunk comes from the first listed zone and has that index's size |
| `SlabHeap.SlabGlobals.SetUpZone` | src/slab.c:625-658 | the written zone header represents the opened zone |
| `SlabHeap.SlabGlobals.ZoneArrived` | src/slab.c:609-659 | the section after page allocation represents the abstract step, although other threads ran in between |
| `SlabHeap.SlabGlobals.MarkPages` | src/slab.c:615-622 | the loop describes every page of the zone by its distance and no other page |
| `SlabHeap.SlabGlobals.UnmarkPages` | src/slab.c:885-891 | the loop clears exactly those descriptions |
| `SlabHeap.SlabGlobals.Locate` | src/slab.c:795-827 | from the address alone the usage table gives the zone and the chunk, or the large block |
| `SlabHeap.SlabGlobals.FreePointer` | src/slab.c:771-904 | represents the abstract freeing of whatever lies at the address: exactly that allocation is gone and live no more, and used_mem drops by its size; RT_NULL is ignored |
| `SlabHeap.SlabGlobals.FreeWhole` | src/slab.c:797-810 | represents giving up a large allocation |
| `SlabHeap.SlabGlobals.FreeSmall` | src/slab.c:822-903 | represents the abstract freeing of a chunk of a zone, which `SlabEffects.StepEffect` and `SlabEffects.FreeChunkFate` pin down |
| `SlabHeap.SlabGlobals.Unlink` | src/slab.c:862-865 | the walk along z_next ends at the zone and removes it alone |
| `SlabHeap.SlabGlobals.Retire` | src/slab.c:854-891 | represents the abstract retirement |
| `WaitGate.SuspendRanked` | src/ipc.c:93-118 | with the priority flag a waiter goes behind all at least as urgent and before all less urgent, and the list stays ranked |
| `WaitGate.ListSuspend` | src/ipc.c:80-123 | the search loop of rt_ipc_list_suspend inserts exactly there, or at the end for FIFO |
| `WaitGate.SuspendJoins` | src/ipc.c:80-123 | suspending keeps the order of those waiting and puts the thread last, first, or behind all at least as urgent and before all less urgent |
| `WaitGate.WakeMostUrgent` | src/ipc.c:134-147 | in a queue ranked by priority the thread resumed is one that no waiter is more urgent than |
| `WaitGate.WakeSound` | src/ipc.c:134-147 | adding a unit and waking one waiter keeps "if anyone waits, available units do not exceed woken threads" |
| `WaitGate.BlockSound` | src/ipc.c:80-123 | so does suspending when nothing is available |
| `WaitGate.TakeSound` | src/ipc.c:1473-1542 | so does taking a unit, by a woken thread or by one that barges in |
| `WaitGate.GiveUpSound` | src/ipc.c:1525-1532 | so does a woken thread that finds nothing and gives up |
| `WaitGate.ExpireSound` | src/thread.c:807-829 | so does a waiter's timeout |
| `WaitGate.FlushSound` | src/ipc.c:157-185 | so does resuming everybody |
| `Mailbox.StepInv` | src/ipc.c:1442-1758 | every step keeps: at most size mails, and no lost wakeup on the sending and on the receiving side |
| `Mailbox.Reachable` | src/ipc.c:1442-1758 | that holds after every run of senders, receivers, barging, timeouts and resets |
| `Mailbox.StepEffect` | src/ipc.c:1442-1758 | each step: a thread sleeps if and only if there is no room, or no mail, and it has time to wait; a mail goes to the end and wakes the first receiver, taking one wakes the first sender, and nobody else; a timeout takes out that waiter only |
| `Mailbox.FreshInv` | src/ipc.c:1294-1322 | it holds of an initialized mailbox |
| `Mailbox.FifoDelivery` | src/ipc.c:1535-1691 | without a reset, earlier mails and those senders were told are accepted are, in this order, what receivers got and what is still inside: nothing lost, doubled or reordered |
| `Mailbox.MailBox.SendAttempt` | src/ipc.c:1464-1561 | the ring buffer and its wrapping offset represent appending the mail; full and blocking cases change no mail |
| `Mailbox.MailBox.RecvAttempt` | src/ipc.c:1610-1714 | the ring buffer represents taking the oldest mail |
| `Mailbox.MailBox.Timeout` | src/thread.c:807-829 | the waiter leaves its list and nothing else changes |
| `Mailbox.MailBox.Reset` | src/ipc.c:1734-1755 | the mailbox is empty and nobody waits |
| `MessageQueueSpec.StepInv` | src/ipc.c:1975-2445 | every critical section and every unlocked copy keeps: nodes partitioned into free list, queue and nodes held by a sender or receiver, finished copies intact, no lost wakeup on either side |
| `MessageQueueSpec.Reachable` | src/ipc.c:1975-2445 | that holds after every interleaving, and the number of nodes never changes |
| `MessageQueueSpec.StepEffect` | src/ipc.c:1975-2445 | each step: a sender gets the first free node if and only if there is one and its message fits, a receiver the front of the queue if and only if there is one; otherwise it sleeps if and only if it has time to wait; a message wakes the first receiver, a returned node the first sender, and nobody else |
| `MessageQueueSpec.FreshInv` | src/ipc.c:1781-1831 | it holds of an initialized queue of n nodes |
| `MessageQueueSpec.StepRefines` | src/ipc.c:2090-2106 | what users see is a sequence: publishing appends, urgent publishing prepends, a receive pops and later delivers exactly what it popped, cut to its buffer, reset empties, every other step leaves it alone |
| `MessageQueueSpec.JobsSurvive` | src/ipc.c:2351-2361 | a node being copied is touched by no other thread's step, a reset included |
| `MessageQueueSpec.FifoDelivery` | src/ipc.c:1975-2384 | without urgent messages and resets, earlier and published messages are, in order, the received ones followed by the queued ones |
| `MessageQueue.MsgQueue.constructor` | src/ipc.c:1781-1831 | the linked nodes represent a fresh queue |
| `MessageQueue.MsgQueue.TrySend` | src/ipc.c:1991-2083 | refusing an oversized message, unlinking a free node, giving up or suspending represents the abstract step |
| `MessageQueue.MsgQueue.TryUrgent` | src/ipc.c:2166-2189 | the same for an urgent send, which never waits |
| `MessageQueue.MsgQueue.CopyIn` | src/ipc.c:2085-2088 | filling a node outside any critical section disturbs neither list |
| `MessageQueue.MsgQueue.Publish` | src/ipc.c:2090-2119 | head, tail and next represent the queue with the node appended; one receiver is woken |
| `MessageQueue.MsgQueue.PublishUrgent` | src/ipc.c:2194-2219 | they represent the queue with the node prepended |
| `MessageQueue.MsgQueue.TryRecv` | src/ipc.c:2265-2352 | they represent the queue without its front, the tail cleared when it was the last |
| `MessageQueue.MsgQueue.RecvFinish` | src/ipc.c:2354-2376 | the message returned is the one popped, cut to the buffer, and the node is free again |
| `MessageQueue.MsgQueue.Expire` | src/thread.c:807-829 | the waiter leaves its list and nothing else changes |
| `MessageQueue.MsgQueue.Reset` | src/ipc.c:2406-2442 | the queue is empty and all its nodes are free, those being copied excepted |
| `MemPool.StepInv` | src/mempool.c:303-449 | every step keeps: free and live blocks partition the pool, and no lost wakeup |
| `MemPool.Reachable` | src/mempool.c:303-449 | that holds after every run, so no block is handed out twice and none is lost |
| `MemPool.StepEffect` | src/mempool.c:303-449 | each step: a block is had if and only if one is free, the one freed last; otherwise the caller sleeps if and only if it has time to wait; a freed block wakes the thread that came last |
| `MemPool.FreshInv` | src/mempool.c:77-124 | it holds of an initialized pool |
| `MemPool.BlocksApart` | src/mempool.c:99-116 | blocks with their owner word never overlap and end inside the area |
| `MemPool.MemoryPool.constructor` | src/mempool.c:77-124 | the loop threads all blocks on one chain in address order |
| `MemPool.MemoryPool.Attempt` | src/mempool.c:319-390 | the chain and counter represent taking its first block, giving up, or suspending |
| `MemPool.MemoryPool.Release` | src/mempool.c:399-449 | they represent the block back in front, with one waiter woken; RT_NULL is ignored |
| `Mutex.TakeCore` | src/ipc.c:654-779 | taking keeps: value 0 iff there is an owner iff hold > 0, the stored original priority is the owner's own, everyone else has its own priority |
| `Mutex.TakeInherits` | src/ipc.c:721-733 | after a take the owner is at least as urgent as everyone who waited during its tenure, and the waiters stay ranked |
| `Mutex.ReleaseCore` | src/ipc.c:790-881 | releasing keeps the ownership facts, for any caller |
| `Mutex.ReleaseInherits` | src/ipc.c:841-861 | with the priority flag the new owner is at least as urgent as those still waiting |
| `Mutex.StepInv` | src/ipc.c:654-881 | ownership and inheritance survive every step of every thread, timeouts included |
| `Mutex.RunInv` | src/ipc.c:530-881 | they hold after every run from an initialized mutex, for both flags |
| `Mutex.Reachable` | src/ipc.c:654-881 | with the priority flag, after any run: the owner is at least as urgent as every waiter, non-owners hold their base priority, value 0 iff owner iff hold > 0 |
| `Mutex.ExactInheritance` | src/ipc.c:721-728 | the owner's priority is exactly the most urgent among its base and those of threads that waited during its tenure: never boosted further |
| `Mutex.ReleaseRestores` | src/ipc.c:828-871 | full release restores the priority held at acquisition and hands over to the first waiter, or frees the mutex |
| `Mutex.TakeEffect` | src/ipc.c:666-747 | a free mutex, or one's own, is had at once and is one hold deeper; otherwise the caller gives up, or queues by arrival or urgency and lends the owner its priority if it is more urgent; nobody else's priority changes |
| `Mutex.ReleaseEffect` | src/ipc.c:805-880 | only the owner releases; any release but the last only lowers the hold; the last restores its priority and gives the mutex to the first waiter, if any; a timeout takes out that waiter only |
| `Mutex.OwnerStays` | src/ipc.c:654-881 | in every run the mutex changes hands only after as many releases as takes; until then the hold count is their balance |
| `Mutex.FifoHandOver` | src/ipc.c:841-861 | under FIFO the new owner is as urgent as the rest if and only if the head of the queue already was |
| `Mutex.FifoInversion` | src/ipc.c:841-861 | a run after which a FIFO mutex's owner is less urgent than a waiter |
| `Mutex.MutexObject.TakeMutex` | src/ipc.c:666-747 | the field updates represent the abstract take; success means ownership |
| `Mutex.MutexObject.ReleaseMutex` | src/ipc.c:805-880 | the field updates represent the abstract release, refused for anyone but the owner |
| `Mutex.MutexObject.Timeout` | src/thread.c:807-829 | the waiter leaves and the invariant stays |
| `Event.FewerBits` | src/ipc.c:1064-1082 | clearing bits never satisfies a waiter, so one scan in list order suffices |
| `Event.ServeLeavesNobody` | src/ipc.c:1054-1101 | a scan only clears bits, resumes exactly those it does not leave waiting, and leaves nobody satisfied |
| `Event.DecidedForGood` | src/ipc.c:1058-1100 | later turns of the scan do not change what earlier ones decided |
| `Event.ServedInTurn` | src/ipc.c:1159-1229 | a woken receiver gets the bits, and takes away the bits, that an immediate receive at its turn would have; the others would have got nothing; `Event.SendBits` says so bit by bit |
| `Event.RecvBits` | src/ipc.c:1159-1215 | a receive is answered if and only if every wanted bit is set (AND) or some wanted bit is (OR); a bit is reported if and only if it is set and wanted, and stays set if and only if it was and is not wanted or CLEAR was not given; an unanswered receive changes no bit |
| `Event.AnswerBits` | src/ipc.c:1064-1092 | one answer, bit by bit: given if and only if the wanted bits are set, reporting those set and wanted, taking them away only with CLEAR |
| `Event.SendBits` | src/ipc.c:1049-1101 | a send adds its bits; then the same holds of every waiter in list order, on the bits left by those before it; earlier answers stay |
| `Event.LeaveBits` | src/ipc.c:1223-1277 | a timeout takes out that waiter only, a resumed receiver takes its stored answer along, a reset leaves no bit and nobody waiting |
| `Event.StepInv` | src/ipc.c:1029-1277 | every step keeps: no suspended thread's condition is met |
| `Event.Reachable` | src/ipc.c:1029-1277 | that holds in every reachable state |
| `Event.EmptyInv` | src/ipc.c:915-933 | it holds of an initialized event |
| `Event.EventObject.Visit` | src/ipc.c:1063-1092 | one visit answers as an immediate receive, in the thread's event_set and the event's set, which `Event.AnswerBits` says bit by bit |
| `Event.EventObject.Scan` | src/ipc.c:1057-1100 | the loop, unlinking as it goes, represents serving the whole list in order |
| `Event.EventObject.SendEvent` | src/ipc.c:1029-1111 | represents the abstract send, refused for an empty set |
| `Event.EventObject.Receive` | src/ipc.c:1127-1215 | represents the abstract receive up to the point of sleeping, with its error cases, which `Event.RecvBits` says bit by bit |
| `Event.EventObject.FinishReceive` | src/ipc.c:1223-1236 | a resumed receiver returns what the send stored for it |
| `Event.EventObject.Timeout` | src/thread.c:807-829 | the waiter leaves and nothing else changes |
| `Event.EventObject.ResetEvent` | src/ipc.c:1257-1274 | no bits, nobody waiting |
| `Bitmap.ByteLowest` | src/kservice.c:1286-1304 | the lookup table gives the lowest set bit of every non-zero byte |
| `Bitmap.FfsLowest` | src/kservice.c:1316-1330 | __rt_ffs is one more than the lowest set bit of every non-zero 32-bit word |
| `Bitmap.BlankTracks` | src/scheduler.c:229-235 | the cleared map tracks empty lists |
| `Bitmap.MarkTracks` | src/scheduler.c:733-737 | setting the masks makes the one- or two-level map track one more priority and no other |
| `Bitmap.UnmarkTracks` | src/scheduler.c:820-831 | clearing them makes it track one less, the group bit staying while its byte is non-zero |
| `Bitmap.UnmarkIdle` | src/scheduler.c:820-831 | clearing the masks of a priority that is not tracked changes nothing |
| `Bitmap.LowestTracks` | src/scheduler.c:162-173 | the lookup finds the lowest tracked priority, and the group is zero exactly when there is none |
| `Scheduler.EnqueueQueues` | src/scheduler.c:724-737 | inserting keeps READY threads in exactly the list of their priority, and the map true exactly of non-empty lists |
| `Scheduler.RemoveQueues` | src/scheduler.c:818-831 | removing a ready thread keeps that |
| `Scheduler.RemoveIdle` | src/scheduler.c:818-831 | removing a thread that is in no list changes nothing |
| `Scheduler.LookupIsHead` | src/scheduler.c:162-184 | the lookup gives the head of the lowest-numbered non-empty list, a ready thread no other ready thread is more urgent than |
| `Scheduler.RescheduleInv` | src/scheduler.c:418-531 | rescheduling keeps lists, bitmap and states consistent and the current thread in no list |
| `Scheduler.RescheduleBest` | src/scheduler.c:437-471 | an unlocked rt_schedule leaves a running thread and no strictly more urgent ready one, and switches only to the looked-up thread |
| `Scheduler.ScheduleEffect` | src/scheduler.c:418-531 | locked, or with nobody ready, or with a running thread that is more urgent than every ready one or as urgent and not yielding, nothing changes; otherwise the first of the most urgent ready threads takes over, and a displaced running thread goes to the back of its list |
| `Scheduler.InsertInv` | src/scheduler.c:708-742 | resuming a suspended thread keeps the invariant, the current one included |
| `Scheduler.SuspendInv` | src/thread.c:715-754 | suspending any thread keeps it |
| `Scheduler.ReprioritizeInv` | src/thread.c:630-671 | changing any thread's priority keeps it; what changes is in `Scheduler.ReprioritizeEffect` |
| `Scheduler.ReprioritizeEffect` | src/thread.c:630-671 | only the priority of that thread changes; a ready thread leaves its list and is last in the list of its new priority, and in no other; all other lists stay |
| `Scheduler.TickInv` | src/clock.c:83-96 | the end of a time slice keeps it |
| `Scheduler.StepInv` | src/thread.c:289-829 | every operation keeps it |
| `Scheduler.StepEffect` | src/thread.c:289-829 | every operation changes exactly the thread, list, slice or nesting it names, and then reschedules if it is one that does; leaving an inner critical section only lowers the nesting |
| `Scheduler.Reachable` | src/thread.c:289-829 | every reachable state satisfies it |
| `RoundRobin.TickWithinSlice` | src/clock.c:83-96 | within a slice every waiting time drops by one and the queue stays |
| `RoundRobin.SliceEnd` | src/clock.c:87-96 | at the end of a slice the head of the queue runs, the old thread goes to the back with a fresh slice, and no other budget changes |
| `RoundRobin.OneTick` | src/clock.c:83-96 | after one tick the k-th queued thread runs, or still waits, one tick closer |
| `RoundRobin.RunsInTurn` | src/clock.c:83-96 | a thread queued at the running priority starts after exactly the ticks left to the current thread and to those ahead of it, and not before |
| `ReadyQueue.Globals.constructor` | src/scheduler.c:191-239 | initialized lists and bitmap and one running thread satisfy the invariant |
| `ReadyQueue.Globals.InsertThread` | src/scheduler.c:708-742 | the globals represent the abstract insertion; the current thread becomes running instead |
| `ReadyQueue.Globals.RemoveThread` | src/scheduler.c:805-835 | they represent the abstract removal |
| `ReadyQueue.Globals.GetHighest` | src/scheduler.c:162-184 | returns a ready thread of the lowest tracked priority |
| `ReadyQueue.Globals.DoSchedule` | src/scheduler.c:418-531 | they represent the abstract reschedule, and the invariant holds |
| `ReadyQueue.Globals.SetPriority` | src/thread.c:630-671 | they represent the abstract priority change, and the invariant holds; only the priority of that thread changes, and a ready thread is in the list of its new priority and in no other |
| `ReadyQueue.Globals.SuspendThread` | src/thread.c:715-754 | they represent the abstract suspension, refused unless ready or running |
| `ReadyQueue.Globals.ResumeThread` | src/thread.c:764-798 | they represent the abstract resumption, refused unless suspended |
| `ReadyQueue.Globals.StartThread` | src/thread.c:289-321 | they represent starting the thread at its initial priority and rescheduling |
| `ReadyQueue.Globals.TickIncrease` | src/clock.c:83-96 | they represent one tick of the running thread's slice |
| `ReadyQueue.Globals.EnterCriticalSection` | src/scheduler.c:878-893 | the nesting grows and the invariant holds |
| `ReadyQueue.Globals.ExitCriticalSection` | src/scheduler.c:940-965 | the nesting shrinks, and leaving the outermost section reschedules |
| `KconfigExpr.MakeAnd` | tools/kconfiglib.py:2745-2757 | the simplified conjunction has the minimum as its value under every valuation |
| `KconfigExpr.MakeOr` | tools/kconfiglib.py:2759-2771 | the simplified disjunction has the maximum |
| `KconfigExpr.ExprRead` | tools/kconfiglib.py:3264-3348 | parsing the printed tokens of any expression, with anything that can follow one behind, gives its right-nested form and leaves the rest |
| `KconfigExpr.NestedValue` | tools/kconfiglib.py:3299-3312 | right nesting changes no value, and the rewritten m counts as m && MODULES |
| `KconfigExpr.RoundTrip` | tools/kconfiglib.py:5910-5951 | printing then parsing succeeds, uses up the tokens, and keeps the value under every valuation |
| `KconfigExpr.PrintDetermines` | tools/kconfiglib.py:5910-5951 | expressions printed alike have equal values |
| `KconfigExpr.PrintStable` | tools/kconfiglib.py:6194-6199 | printing what was parsed gives the same tokens again |
| `KconfigExpr.ExprParser.CheckToken` | tools/kconfiglib.py:2476-2482 | consumes the token exactly if it is next |
| `KconfigExpr.ExprParser.Expression` | tools/kconfiglib.py:3264-3303 | terminates with the grammar's disjunction, and the token index moves past exactly what was read |
| `KconfigExpr.ExprParser.Conjunction` | tools/kconfiglib.py:3305-3312 | the same for conjunctions |
| `KconfigExpr.ExprParser.Factor` | tools/kconfiglib.py:3314-3348 | the same for factors, with the errors for malformed input |
| `KconfigLaws.Connectives` | tools/kconfiglib.py:5852-5864 | a conjunction is the smaller, a disjunction the larger of its operands, and negation swaps n and y |
| `KconfigLaws.Operands` | tools/kconfiglib.py:5849-5850 | constants stand for themselves, symbols for their values, choices for their modes |
| `KconfigLaws.OperandNumber` | tools/kconfiglib.py:6226-6234 | as a number a bool or tristate is its tristate, hex is read in base 16, int in base 10, anything else as its prefix tells |
| `KconfigLaws.Comparison` | tools/kconfiglib.py:5866-5892 | a comparison is y or n, and y if and only if the operands are so related as numbers, or lexicographically if both are strings or one is no number |
| `KconfigLaws.ModeLaw` | tools/kconfiglib.py:5048-5065 | a choice is in the mode the user wants, at least m unless optional, at most as visible, m counting as y for bools |
| `KconfigLaws.EvalLawful` | tools/kconfiglib.py:4166-4384 | every visibility, tristate value, string value and selection obeys its law, which speaks of its properties and not of how it is worked out; tristates are n, m or y |
| `KconfigLaws.LawDecides` | tools/kconfiglib.py:4166-4384 | and no two values obey the same law |
| `KconfigTheorems.TruthSettled` | tools/kconfiglib.py:4166-4402 | all from-scratch values together are what each formula gives on the others, and every tristate is n, m or y |
| `KconfigTheorems.CacheSettled` | tools/kconfiglib.py:4166-4402 | so are all cached values, so the following holds of them too |
| `KconfigTheorems.ScratchLawful` | tools/kconfiglib.py:4166-4402 | the from-scratch value of a property is the one value that obeys its law given all the others |
| `KconfigTheorems.SelectsForce` | tools/kconfiglib.py:4358-4365 | outside choices, no bool or tristate symbol is below its reverse dependencies |
| `KconfigTheorems.UserDecides` | tools/kconfiglib.py:4330-4332 | with those at n and the symbol visible, it is the smaller of user value and visibility, up to promotion of m |
| `KconfigTheorems.DefaultsDecide` | tools/kconfiglib.py:4334-4356 | with those at n, and invisible or without a user value, it is the first default whose condition is not n, raised by imply only if the direct dependencies hold, up to promotion of m |
| `KconfigTheorems.NeverM` | tools/kconfiglib.py:4367-4371 | what counts as a bool is never m, in a choice or outside |
| `KconfigTheorems.SelectionIsY` | tools/kconfiglib.py:4373-4377 | in a choice in y mode a bool or tristate symbol is y if and only if it is the selection, and n otherwise |
| `KconfigTheorems.ChoiceExcludes` | tools/kconfiglib.py:4373-4377 | so at most one of its symbols is not n |
| `KconfigTheorems.NoneIsY` | tools/kconfiglib.py:4373-4381 | in a choice in m mode no symbol is y |
| `KconfigTheorems.SelectionVisible` | tools/kconfiglib.py:5280-5303 | a selection is a visible symbol, and its choice in y mode |
| `KconfigTheorems.NoSelection` | tools/kconfiglib.py:5290-5303 | a choice in y mode with nothing selected has no visible symbol |
| `KconfigTheorems.NumberInRange` | tools/kconfiglib.py:4191-4276 | the value of an int or hex symbol is within its active range if and only if that range is not empty |
| `KconfigTheorems.UserNumber` | tools/kconfiglib.py:4208-4239 | a visible user value within the active range is the value, as it was written |
| `KconfigTheorems.PromptsBound` | tools/kconfiglib.py:6145-6172 | outside choices no prompt is above the visibility, and one attains it, m counting as y for what is no tristate |
| `KconfigLocality.EvalLocal` | tools/kconfiglib.py:4166-4384 | the value of a property depends only on the properties that can make a difference and the user's own entry |
| `KconfigLocality.NeverVisible` | tools/kconfiglib.py:6145-6172 | without a prompt, or with prompts whose conditions are all n, visibility is n whatever the choice's mode |
| `KconfigLocality.FixedEval` | tools/kconfiglib.py:4178-4183 | constant properties have the same value whatever else holds |
| `KconfigDeps.ConsistentIsScratch` | tools/kconfiglib.py:4166-4402 | a cache each of whose entries agrees with its formula holds the from-scratch values |
| `KconfigDeps.Store` | tools/kconfiglib.py:4400-4402 | caching a computed value keeps the cache consistent |
| `KconfigDeps.ReadsNear` | tools/kconfiglib.py:3354-3427 | the values of an item depend only on items whose changes reach it, if and only if its choice defaults, or its choice unless it is never visible, do |
| `KconfigDeps.ReachesExactly` | tools/kconfiglib.py:4737-4766 | the invalidation of an item takes the values of another along, for every cache, if and only if it is the same item, is mentioned by it, or is MODULES |
| `KconfigDeps.VisibilityCached` | tools/kconfiglib.py:4747-4755 | a cached value that is not constant implies a cached visibility, which justifies stopping the invalidation |
| `KconfigDeps.SweepSound` | tools/kconfiglib.py:4737-4766 | if all items are covered that way, what an invalidation sweep leaves is right for the new user values |
| `KconfigDeps.StillRight` | tools/kconfiglib.py:4737-4766 | the same for one remaining entry |
| `KconfigStale.StaleSelection` | tools/kconfiglib.py:5290-5303 | on a configuration with a choice default outside its choice: set a value, read the selection, reset the value, read again, and the second read is not what evaluation gives |
| `KconfigCache.Kconfig.constructor` | tools/kconfiglib.py:3354-3427 | on any loop-free configuration the initial state is valid: dependents built, cache empty, no user values |
| `KconfigCache.Kconfig.DependOn` | tools/kconfiglib.py:6175-6191 | the item becomes a dependent of exactly the non-constant items of the expression |
| `KconfigCache.Kconfig.Register` | tools/kconfiglib.py:3368-3413 | the item becomes a dependent of everything its properties mention |
| `KconfigCache.Kconfig.BuildDeps` | tools/kconfiglib.py:3354-3427 | dependents are exactly the defined items that mention an item, a choice for its symbols included |
| `KconfigCache.Kconfig.ExprValue` | tools/kconfiglib.py:5838-5892 | short-circuiting and caching on the way, it returns the expression's value and the cache only grows consistently |
| `KconfigCache.Kconfig.Visibility` | tools/kconfiglib.py:6145-6172 | returns, and leaves cached, the visibility the formula gives |
| `KconfigCache.Kconfig.TriValue` | tools/kconfiglib.py:4307-4384 | returns, and leaves cached, the tristate value the formula gives, which `KconfigLaws.EvalLawful` and `KconfigTheorems` say the meaning of |
| `KconfigCache.Kconfig.StrValue` | tools/kconfiglib.py:4166-4304 | returns, and leaves cached, the string value the formula gives |
| `KconfigCache.Kconfig.ModeValue` | tools/kconfiglib.py:5048-5065 | returns the mode the formula gives, which is not cached itself |
| `KconfigCache.Kconfig.Selection` | tools/kconfiglib.py:5086-5092 | returns what is cached, or else the selection the formula gives, which it leaves cached |
| `KconfigCache.Kconfig.InvalidateAll` | tools/kconfiglib.py:3429-3437 | drops exactly the entries of defined items |
| `KconfigCache.Kconfig.RecInvalidate` | tools/kconfiglib.py:4737-4766 | terminates despite loops between choices and their symbols, leaves no dropped item with a dependent whose visibility is still cached, and drops nothing that the cached dependents do not lead to |
| `KconfigCache.Kconfig.InvalidateIfPrompted` | tools/kconfiglib.py:4768-4788 | the same if there is a prompt; otherwise nothing needs dropping |
| `KconfigCache.AssignedEffect` | tools/kconfiglib.py:4430-4517 | a value that fits becomes the item's user value, and y for a choice symbol makes it the choice's selection; nothing else of the user's changes, and a value that does not fit changes nothing |
| `KconfigCache.Kconfig.SetValue` | tools/kconfiglib.py:4430-4517 | accepts exactly the values that fit the type, records them (and the choice selection), and, if all items are covered, leaves a cache right for the new user values |
| `KconfigCache.Kconfig.UnsetValue` | tools/kconfiglib.py:4519-4526 | forgets the value and, if all items are covered, leaves a cache right for the new user values |
| `KconfigCache.Kconfig.Fetch` | tools/kconfiglib.py:4166-4402 | any read of a property returns its from-scratch value, which obeys its law given all the other from-scratch values |
| `KconfigCache.Kconfig.Run` | tools/kconfiglib.py:4430-4526 | if all items are covered, then after any interleaving of assignments, removals and reads every read returns what evaluation from scratch under the user values of that moment gives, and what obeys the law of that property |
| `RomImage.NameQuadsIs` | tools/mkromfs.py:31-36 | the padded name length is the next multiple of four above the name's |
| `RomImage.DataQuadsIs` | tools/mkromfs.py:197-200 | the padded data length is the next multiple of four at or above the data's |
| `RomImage.BinLength` | tools/mkromfs.py:162-211 | the bytes produced are as many as the addresses computed in advance assume |
| `RomImage.EntryRead` | tools/mkromfs.py:203-207 | packed entries are read back, for all 32-bit field values |
| `RomImage.NodeRead` | tools/mkromfs.py:181-211 | a file or folder placed in an image is read back from its entry, all addresses met aligned and inside |
| `RomImage.NodesRead` | tools/mkromfs.py:181-211 | so are all children of a folder, in order |
| `RomImage.ImageRead` | tools/mkromfs.py:230-241 | following name, data and size fields from the root recovers exactly the tree |
| `RomImage.DeepEnough` | tools/mkromfs.py:162-211 | a reader as deep as the tree is high reaches all of it, so the depth bound of the reader loses nothing |
| `RomImage.EndFits` | tools/mkromfs.py:203-207 | packing succeeds whenever the image ends below the 32-bit limit |
| `RomImage.BinData` | tools/mkromfs.py:162-211 | the recursion and loops give the layout, and fail exactly if some address or size does not fit 32 bits |
| `RomImage.FolderData` | tools/mkromfs.py:174-211 | the loop over children, advancing v_len, gives entries and payload that agree on every address |
| `RomImage.ChunkData` | tools/mkromfs.py:191-209 | one child's name and padded contents have exactly the length v_len advances by |
| `RomImage.MakeImage` | tools/mkromfs.py:230-241 | for every tree with NUL-free names and aligned base address, the image made is one from which a reader recovers the tree |

## Left out

- Symmetric multiprocessing: per-CPU tables, spinlocks and inter-processor interrupts.
- Signals, and the retry of `rt_mutex_take` after an interrupting signal.
- Soft timers, `rt_tick_set` and `rt_thread_delay_until`.
- Semaphores, which wait like the other objects but hold only a counter.
- Thread creation, deletion and reaping of defunct threads; the object registry; devices; hooks.
- Console output, formatted printing, string and memory helpers of `src/kservice.c`.
- Wrap-around of counters other than the tick: hold counts, entry counts, sizes near the address limit. They are unbounded integers here.
- Lists inside timers, threads and zones are sequences in the protocol models; `IntrusiveList` relates the pointers to such sequences once, and its contracts are not threaded through every use.
- Magic numbers of block and zone headers are not modelled beyond "this is a live block", and `rt_calloc` and `rt_memory_info` are not modelled at all.
- `heap_end`'s prev field in `src/mem.c` is not maintained by the code, and the invariant says nothing about it.
- HeapMemory.SmallHeap.Free: takes RT_NULL or a pointer to a live allocation, as the code asserts; the messages for bad pointers are not modelled.
- HeapMemory.SmallHeap.Move: allocation, copy and release run without another thread in between, while the source leaves the heap unlocked between them.
- HeapMemory.SmallHeap.Realloc: its moving path is HeapMemory.SmallHeap.Move, with the same restriction.
- HeapMemory.SmallHeap.Malloc: takes requests for which the scan ends, that is all on a heap with room for a minimal block; the endless scan itself is in `HeapScan`.
- MemHeapObject.MemHeap.Reallocate: does not model the copied contents, and treats its locked sections as one step; alignment of user addresses is left out too.
- MemPool.MemoryPool.constructor: requires room for one block, since with none the code writes in front of its area.
- Slab reallocation and the contents of slab chunks.
- Slab.StepInv: configurations are those with zone limit at most a quarter of the zone, as initialization computes them; that computation itself is not modelled.
- MessageQueue.MsgQueue.RecvFinish: a buffer longer than the message also receives what is left in the node behind it; those bytes are not modelled.
- Event bit masks are sets of bit numbers.
- Mutex: one mutex at a time and no priority changes from outside while it is in use, because the code keeps no such invariant; deletion and detaching.
- The scheduler's tick handling excludes timers, which are modelled on their own; stack checks and context switches are atomic steps.
- TimerQueue.FiresAtFirstCheck: assumes one check per tick, which ends, and initial ticks below half the range, as the code asserts. `TimerEnding.EndsExactly` tells when a check ends; for callbacks that start timers of zero ticks in a circle no condition is given.
- Kconfig file reading, tokenizing, macros, menus, warnings and the `assignable` and `write to conf` values. Conversions between numbers and strings are parameters; `KconfigTheorems.NumberInRange` assumes that reading a printed number gives it back.
- The dependency-loop check of Kconfig: loop freedom is a hypothesis, given as a ranking of properties.
- KconfigCache.Kconfig.Run: assumes that changes of choice defaults reach their choice, which defaults inside the choice do, and that choice symbols mention their choice or are never visible, as the preprocessing of the source arranges.
- KconfigExpr.RoundTrip: at the level of tokens and for expressions without choices, which have no concrete syntax.
- The C source output of the ROM image tool, directory walking and sorting; the byte order of packed words is little endian.
