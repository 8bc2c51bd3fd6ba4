# EwokOS kernel: a verified model

EwokOS is a C microkernel. This project models its blocking, IPC and memory machinery in Dafny and proves what that machinery is for. `dafny verify dfyconfig.toml` checks everything.

Each component has two layers. One is a value-level machine: a state, one function per kernel operation, a predicate every operation keeps, and theorems over whole runs. The other is imperative: a class with the code's loops and in-place updates, whose methods are proved equal to those functions. The `Exact` modules say, without naming the functions' bodies, when each operation gives each of its answers and what it changes: an allocator's list is there only a set of pieces in use, a cnode only the caps in it.

- **Blocking core.** `WakeLatch` is the sticky wake latch of a task. `Semaphore`, `SemaphoreInvariant`, `SemaphoreHandoff`, `SemaphoreRuns`, `SemaphoreExact` and `SemaphoreScenes` join it with the permit pools and the hand-off queue. Every proc-lock critical section is one step, and any step of another task may come between two of them, in particular between publishing a waiter slot and parking.
- **IPC.** `IpcPool`, `IpcPoolInvariant`, `IpcPoolRuns`, `IpcPoolExact` and `IpcServer` are the worker-pool server. `IpcReply`, `IpcReplyRuns` and `IpcReplyExact` are the routing of replies across all servers. `IpcWaitQueue` and `IpcWaitRuns` are the intrusive wait list. System calls and timer ticks are the steps, because `kernel_lock` serialises them.
- **Memory.** `CopyOnWrite`, `ForkRefinement` and `ForkExact` are fork with page reference counts. `TrunkHeap`, `TrunkExact`, `TrunkLinks` and `TrunkAllocator` are the kernel heap. `Dma`, `DmaRuns`, `DmaExact`, `DmaBlocks` and `DmaTable` are the DMA allocator with device pins. `ShmPool`, `ShmSegments`, `ShmInvariant`, `ShmRuns`, `ShmExact`, `ShmScenes` and `ShmTable` are shared memory over a contiguous slab. `DlWindow` and `DlClone` are the anonymous mapping window. `Tiling` holds the facts about runs that tile a range.
- **Capabilities.** `Caps` is the calls, `CapsWalk` the walk over the fathers of a thread, `CapsRuns` the provenance of caps and of root, `CapsHome` and `CapsConfined` when a task acts for its own process and what follows, `CapsOrphans` four runs in which it does not, `CapsExact` what each call does, `CapTable` the loops.
- **Algorithms.** `PciPlan`, `PciWindows` and `PciExact` plan PCI resources, `Horspool` is `strstr`, `FineClock` is the clock anchor. `Division` and `Options` are small helpers.

Conventions the theorems rest on:

- Clocks, schedulers, page-table memory and pages running out are parameters or events, so a theorem covers every choice of them.
- A binary semaphore is quit only by its holder; `semaphore_quit` itself does not check. Node tokens lie below the semaphore token range. A pid is reused only after its termination is complete.
- A server is set up once, and `_ipc_uid`, `_proc_uuid` and the segment counter `id_counter` do not wrap: identities never repeat, which `ShmRuns.RefsCountSpaces` rests on. In `IpcReply` a pool worker's current request is the slot that records it as handler; `IpcPoolRuns.OneWorkerPerRequest` proves the two agree.
- Each copy-on-write fault is handled atomically and page-table allocation succeeds.
- PCI alignments are the powers of two that PCI requires, so the mask form of `resource_align` is rounding up. BAR sizes are below 2^63, so the 64-bit sums do not wrap.
- The kernel heap is that of the 64-bit build with 4 KiB pages: 32-byte headers, ending at least 2 GiB below 2^64.
- Counted frames start above physical address 0, so `page_ref_index(0)` is out of range and unmapping a page without a frame changes no count.

Where the code does not do what one would expect, the model follows the code:

- A reply with a null package delivers whatever the client's cell held before (`IpcReplyRuns.NullReplyMisdelivers`). `IpcReplyRuns.ReplyExact` says exactly when the data belongs to the request; it never comes from another process.
- `shm_alloc` rounds the size up in 32 bits, so a size of 0 and sizes above 0xffffffe0 mean no pages. A contiguous request for no pages leaves a run that shares its address with the run behind it, and a later release frees the wrong one: `ShmScenes.WrappedSizeAliases` is a run that ends with two segments on the same pages. `ShmRuns.CreateGoodExactly` gives the exact condition of a call; the run theorems ask for contiguous sizes from 1 to 0xffffffe0.
- `dma_alloc` rounds in 32 bits as well, and marks a node free by pid 0. `DmaRuns.AllocGoodExactly` says exactly which callers and sizes get a node of their own; `DmaRuns.NothingShadows` is a run with an empty buffer that hides another. Pins and disjointness hold for every size.
- `dma_set` compares ranges for equality only and adds a second block on a range whose owner lives, so pinned memory can be handed out by another block (`DmaBlocks.PinnedHandedOut`). `DmaBlocks.RegisteredApartExactly` says exactly when ranges stay apart, and `DmaBlocks.PinnedNeverHandedOut` what holds then.
- `shm_proc_unmap` takes the first segment in use at an address, which a scattered segment without pages can hide (`ShmScenes.EmptySegmentHides`); `ShmRuns.AddrFindsExactly` says exactly when.
- `dl_window_clone` marks a slot after copying its pages, so a clone that fails in the middle of a slot leaves the pages copied there mapped in the child, on frames its release does not return (`DlClone.CloneWindow` says which).
- `km_expand` and `km_shrink` multiply in `int`, so from 2 GiB on the tail moves the wrong way and the call reports success (`TrunkHeap.TwoGiBMovesBack`). `TrunkHeap.MallocExact` and `TrunkHeap.FreeExact` are the exact conditions, and `TrunkHeap.SmallHeapSafe` the heaps that meet them.
- The 32-bit arrival counter of the waiter queue wraps, after which a newcomer can pass an older waiter (`SemaphoreScenes.WrapOvertakes`). `SemaphoreRuns.ReleaseServesInOrder` says exactly when order holds.
- A counting semaphore at its ceiling loses the permit of a waiter that dies with a grant (`SemaphoreRuns.RecoveryLosesExactly`, reached by `SemaphoreScenes.FullPoolLoses`).
- A thread's authority is found through the pids of its fathers, not through its address space. Its father may have exited (`CapsOrphans.OrphanForksRoot`), its father's pid may belong to another process by now (`CapsOrphans.ReuseActsForAnother`), it may have detached to pid 0 (`CapsOrphans.DetachActsForInit`), or the fathers may lead in a circle (`CapsOrphans.WalkNeedNotEnd`; a call by such a task has no effect in the model). `CapsHome.ActsForOwnExactly` says exactly when a task acts for its own process, `CapsHome.ForkExactly` when a child gets no more than that process has, and `CapsConfined.StraightExactly` which steps break it.

## Model

| member | source | states |
|---|---|---|
| WakeLatch.LatchRefinesHistory | kernel/kernel/src/proc.c:2161-2256 | over any run of wakes, blocks, ticks and parks, (wake_pending, wake_by) encodes "some wake since the last consumption" and "its first non-zero token, else 0" |
| WakeLatch.EncodesStep | kernel/kernel/src/proc.c:2398-2484 | each wake, block, tick or park keeps that encoding of the wake history |
| WakeLatch.BlockReturnsExactly | kernel/kernel/src/proc.c:2278-2326 | with wakes pending, a node or timed block returns at once exactly when some pending wake was node-scoped, an untimed generic block for any wake; with none pending it sleeps on its token unless already READY |
| WakeLatch.WakeExactly | kernel/kernel/src/proc.c:2398-2484 | a live task a wake reaches (any token while it does not sleep; else an equal token or a generic one) is READY with its saved contexts, and keeps neither token, deadline nor latch of the block it left; every other task is unchanged |
| WakeLatch.DeadlineExactly | kernel/kernel/src/proc.c:3007-3045 | a block with a deadline left alone by wakes ends exactly when the ticks add up to it, with the rest on its counter until then; one without a deadline does not end |
| WakeLatch.TimedBlockEnds | kernel/kernel/src/proc.c:2278-2326 | a timed block of usec is READY after ticks exactly when they add up to usec |
| WakeLatch.UntimedBlockStays | kernel/kernel/src/proc.c:2161-2256 | an untimed block outlasts every tick and every wake aimed at another node |
| WakeLatch.SleepEnds | kernel/kernel/src/proc.c:3007-3024 | a sleep ends exactly with its time |
| WakeLatch.ParkExactly | kernel/kernel/src/proc.c:2708-2792 | a parked worker is blocked on no node with no wake pending, so any wake makes it READY |
| WakeLatch.NoLostNodeEdge | kernel/kernel/src/proc.c:2161-2256 | a node wake before a block makes that block return at once, whatever other wakes, ticks, dispatches and readies come between, so long as nothing else blocks or parks |
| WakeLatch.WakesAccumulate | kernel/kernel/src/proc.c:2398-2484 | a run of any events but blocks and parks on a live task appends exactly the tokens of its wakes to the pending history |
| WakeLatch.Process.WakeupAllState | kernel/kernel/src/proc.c:2370-2396 | the in-place form: main and saved contexts become READY |
| WakeLatch.Process.WakeupBy | kernel/kernel/src/proc.c:2398-2484 | the in-place form equals the transition WakeBy |
| WakeLatch.Process.BlockOn | kernel/kernel/src/proc.c:2161-2256 | the in-place form equals the transition BlockBy and reports whether it slept |
| Semaphore.SemTable.WaiterFind | kernel/kernel/src/semaphore.c:91-103 | the first slot of (semaphore, pid), or -1 |
| Semaphore.SemTable.WaiterAdd | kernel/kernel/src/semaphore.c:69-80 | the first free slot takes the pair and the next arrival number; -1 and no change when none is free |
| Semaphore.SemTable.WaiterDel | kernel/kernel/src/semaphore.c:105-114 | frees the slot only for the pid that owns it |
| Semaphore.SemTable.WaiterHead | kernel/kernel/src/semaphore.c:116-130 | the ungranted waiter with the least arrival number |
| Semaphore.SemTable.HandOff | kernel/kernel/src/semaphore.c:147-171 | permits go to waiters in arrival order, dead waiters are dropped, and the wake carries the semaphore's token |
| Semaphore.SemTable.Purge | kernel/kernel/src/semaphore.c:177-189 | every waiter of a vanishing semaphore is freed and woken |
| Semaphore.SemTable.ResetSem | kernel/kernel/src/semaphore.c:191-198 | purge, then the record is free |
| Semaphore.SemTable.AllocRaw | kernel/kernel/src/semaphore.c:227-248 | the first free record, with its counts |
| Semaphore.SemTable.TakePermit | kernel/kernel/src/semaphore.c:200-208 | takes a permit and names the holder only when one is in the pool |
| Semaphore.SemTable.Clear | kernel/kernel/src/semaphore.c:258-278 | resets what a dying process created |
| Semaphore.SemTable.Enter | kernel/kernel/src/semaphore.c:348-462 | the locked part of enter: collect a grant, take a permit, or publish a waiter slot |
| Semaphore.SemTable.ServingRecheck | kernel/kernel/src/semaphore.c:401-434 | the recheck of a context that must not sleep |
| Semaphore.SemTable.TryLock | kernel/kernel/src/semaphore.c:487-520 | try-enter collects a grant or a permit and never queues |
| Semaphore.SemTable.Release | kernel/kernel/src/semaphore.c:548-571 | quit returns a permit below the ceiling and hands it off |
| Semaphore.SemTable.Recover | kernel/kernel/src/semaphore.c:280-318 | a dying task's grants and holdings go back and are handed off |
| Semaphore.SemTokenInjective | kernel/kernel/src/semaphore.c:50-52 | distinct semaphores have distinct wake tokens |
| SemaphoreHandoff.GrantGood | kernel/kernel/src/semaphore.c:147-171 | granting one slot and waking its task keeps the invariant, whatever the task was doing |
| SemaphoreHandoff.HandoffGood | kernel/kernel/src/semaphore.c:147-171 | the whole hand-off loop keeps it and leaves no permit beside a waiter |
| SemaphoreHandoff.ReturnedGood | kernel/kernel/src/semaphore.c:548-571 | a returned permit keeps it |
| SemaphoreHandoff.RecoverWGood | kernel/kernel/src/semaphore.c:280-318 | recovery of a dead task keeps it |
| SemaphoreHandoff.ResetGood | kernel/kernel/src/semaphore.c:191-198 | resetting a semaphore keeps it |
| SemaphoreRuns.StepKeepsInv | kernel/kernel/src/semaphore.c:348-462 | every critical section of enter, try-enter, quit, create, death, wake, tick and signal keeps the invariant |
| SemaphoreRuns.RunsKeepInv | kernel/kernel/src/semaphore.c:371-461 | so does every interleaving, including grants between publishing a slot and parking |
| SemaphoreRuns.GrantedNeverParked | kernel/kernel/src/semaphore.c:147-171 | no reachable state has a task BLOCKed on a semaphore's token while its slot there is granted |
| SemaphoreRuns.MutexConservation | kernel/kernel/src/semaphore.c:200-208 | binary semaphore, every reachable state: pool + granted + holders = 1, and occupied_pid names the one holder or grantee |
| SemaphoreRuns.PermitLedger | kernel/kernel/src/semaphore.c:548-571 | every semaphore: pool + granted + held equals its credit (initial count plus quits, minus clipped recoveries) |
| SemaphoreRuns.RecoveryLosesExactly | kernel/kernel/src/semaphore.c:280-318 | recovering one slot of a dead task lowers pool + granted + held of its semaphore by one exactly when the slot was granted and the pool stood at its ceiling; no other semaphore, and no binary one, loses any |
| SemaphoreRuns.DeadHoldNothing | kernel/kernel/src/semaphore.c:280-318 | a task whose termination is complete has no waiter slot and holds no mutex |
| SemaphoreRuns.NoOvertaking | kernel/kernel/src/semaphore.c:380-400 | a permit is in the pool only when nobody is queued for it, so a direct acquire overtakes no waiter |
| SemaphoreRuns.ReparkKeepsPlace | kernel/kernel/src/semaphore.c:69-89 | re-parking after a wake without a permit keeps the place in the queue |
| SemaphoreRuns.HandoffServesOldest | kernel/kernel/src/semaphore.c:116-171 | hand-off serves the live waiter with the least arrival number; every other slot is untouched or a dead waiter's |
| SemaphoreRuns.ServesOldestExactly | kernel/kernel/src/semaphore.c:116-130 | the live waiter with the least 32-bit number came first if and only if no other live waiter arrived in an earlier epoch of the counter |
| SemaphoreRuns.ReleaseServesInOrder | kernel/kernel/src/semaphore.c:548-571 | in every reachable state a release with a live waiter queued grants the one with the least number, who came first under exactly that condition |
| SemaphoreExact.EnterExactly | kernel/kernel/src/semaphore.c:348-462 | every reachable state: enter acquires if and only if a permit is in the pool or granted to the caller, who is then one more holder with no place in the queue; it queues if and only if there is neither and it has a place or one is free; it is Occupied if and only if none is free, and Error only on an invalid id |
| SemaphoreExact.TryExactly | kernel/kernel/src/semaphore.c:487-520 | try-enter acquires under the same condition, and otherwise is Occupied and leaves the queue |
| SemaphoreExact.ServingExactly | kernel/kernel/src/semaphore.c:401-434 | the context that must not sleep becomes a holder exactly when its place is granted, and gives up the place either way |
| SemaphoreExact.ReleaseExactly | kernel/kernel/src/semaphore.c:548-571 | a quit is refused exactly on an invalid id or at the ceiling; else the permit joins the pool exactly when no live task is queued, and goes to one of those otherwise |
| SemaphoreExact.GrantWakes | kernel/kernel/src/semaphore.c:147-171 | every reachable state: a task asleep on a semaphore's token whose slot a release grants is READY after that release |
| SemaphoreExact.CreateExactly | kernel/kernel/src/semaphore.c:227-248 | creation takes the first free record with its count and no waiter, and changes nothing exactly when none is free |
| SemaphoreExact.DestroyExactly | kernel/kernel/src/semaphore.c:177-198 | destroying frees the record and every place in its queue, no one else's, and leaves nobody who queued asleep on its token; only the creator can |
| SemaphoreScenes.WrapOvertakes | kernel/kernel/src/semaphore.c:69-130 | a run from boot that counts to the wrap: task 0 queues, then task 1, and the release serves task 1 |
| SemaphoreScenes.FullPoolLoses | kernel/kernel/src/semaphore.c:280-318 | a run from boot that fills the pool before a granted task dies: recovering its slot loses a permit |
| CopyOnWrite.RepairGood | kernel/kernel/src/irq.c:186-215 | a repaired fault leaves every view as it was and the page private and writable |
| CopyOnWrite.PokeGood | kernel/kernel/src/irq.c:186-225 | a store after repair changes one byte of one process's view |
| CopyOnWrite.ShrinkGood | kernel/kernel/src/proc.c:642-657 | shrinking drops the last pages of one view and frees exactly the frames nobody else maps |
| CopyOnWrite.ExpandGood | kernel/kernel/src/proc.c:659-714 | expanding appends zero pages, or on exhaustion undoes itself |
| CopyOnWrite.ForkGood | kernel/kernel/src/proc.c:2510-2547 | the child's view equals the parent's, both read-only on shared frames |
| CopyOnWrite.ExitGood | kernel/kernel/src/proc.c:1965-1968 | exit removes one view and keeps the counts |
| ForkRefinement.StepRefines | kernel/kernel/src/irq.c:186-225 | each event of the shared machine does to every heap view what the eagerly copying machine does |
| ForkRefinement.CowRefinesEagerCopy | kernel/kernel/src/proc.c:2510-2547 | over any run of fork, store, expand, shrink, load and exit, every heap view equals that of a machine that copied every page at fork |
| ForkRefinement.FrameAccounting | kernel/kernel/src/mm/mmu.c:53-72 | in every reachable state refs = number of mappings, writable implies refs = 1, and a frame is free exactly when its count is 0 |
| ForkExact.StoreExactly | kernel/kernel/src/irq.c:186-225 | every reachable state: a store is Done if and only if its page is there and is writable or lies from rw_base on with a frame free, else Killed; it changes that byte in that process alone, and costs a frame exactly when the page was shared or had none |
| ForkExact.ExpandExactly | kernel/kernel/src/proc.c:659-714 | every reachable state: growth is granted if and only if it stays within the limit and that many frames are free; it then takes exactly those, else every heap is as it was |
| ForkExact.ForkLends | kernel/kernel/src/proc.c:2510-2547 | a fork takes no frame: father and child map the same frames page by page, none writable |
| ForkRefinement.PageMachine.KallocPage | kernel/kernel/src/mm/kalloc.c:209-217 | pops the free list, or reports none |
| ForkRefinement.PageMachine.MapPageRef | kernel/kernel/src/mm/mmu.c:53-60 | maps and counts |
| ForkRefinement.PageMachine.UnmapPageRef | kernel/kernel/src/mm/mmu.c:62-72 | uncounts, frees at zero, unmaps; a page without a frame only stays unmapped |
| ForkRefinement.PageMachine.CopyOnWriteFault | kernel/kernel/src/irq.c:186-215 | the fault handler equals Repair, or fails with nothing changed when no page is free |
| ForkRefinement.PageMachine.ShrinkMem | kernel/kernel/src/proc.c:642-657 | the loop equals Shrink |
| ForkRefinement.PageMachine.ExpandMem | kernel/kernel/src/proc.c:659-714 | the loop equals Expand, with roll-back |
| ForkRefinement.PageMachine.CloneHeap | kernel/kernel/src/proc.c:2510-2547 | the loop equals Fork |
| ForkRefinement.PageMachine.NewSpace | kernel/kernel/src/proc.c:731-758 | a process starts with an empty heap |
| IpcPool.FreeSlot | kernel/kernel/src/ipc.c:452-457 | the first idle request slot |
| IpcPool.FirstIdle | kernel/kernel/src/ipc.c:842-854 | the first parked, standing worker on the core that serves nothing |
| IpcPoolInvariant.AdmitFullExactly | kernel/kernel/src/ipc.c:411-502 | a request is refused exactly when all 16 slots are taken, and then nothing changes |
| IpcPoolInvariant.AdmitInv | kernel/kernel/src/ipc.c:446-502 | admission keeps every other binding |
| IpcPoolInvariant.AssignInv | kernel/kernel/src/ipc.c:930-977 | assignment binds the request to one worker on the client's core, or leaves requests and tasks as they were |
| IpcPoolInvariant.CallInv | kernel/kernel/src/ipc.c:1280-1398 | a call leaves no unbound request behind, whatever its answer |
| IpcPoolInvariant.AbortedInv | kernel/kernel/src/ipc.c:577-622 | abort detaches the worker and frees the slot |
| IpcPoolInvariant.EndServingInv | kernel/kernel/src/ipc.c:1556-1617 | ending, parking and exiting keep all bindings |
| IpcPoolInvariant.ParkInv | kernel/kernel/src/proc.c:2708-2792 | parking, or leaving on a quit mark, keeps the pool's promises |
| IpcPoolInvariant.TickInv | kernel/kernel/src/proc.c:3094-3145 | the watchdog sweep keeps them |
| IpcPoolInvariant.ShrinkInv | kernel/kernel/src/ipc.c:991-1019 | the idle sweep keeps them |
| IpcPoolInvariant.TerminatedInv | kernel/kernel/src/proc.c:1325-1341 | a worker's death aborts its request and keeps the rest |
| IpcPoolInvariant.ServerDownInv | kernel/kernel/src/ipc.c:625-673 | teardown clears every slot and every worker |
| IpcPoolRuns.RunsInv | kernel/kernel/src/ipc.c:742-1019 | every run of calls, ends, kills, ticks, sweeps, forks, execs and burials keeps the invariant |
| IpcPoolRuns.OneWorkerPerRequest | kernel/kernel/src/ipc.c:802-833 | every reachable state: each request in flight has exactly one live worker, on its client's core; worker and request name each other; task_num counts the occupied slots |
| IpcPoolRuns.PolicyHolds | kernel/kernel/src/ipc.c:898-977 | per-client mode: one request in flight per pid+uuid; per-core mode: one non-retiring member per core |
| IpcPoolRuns.WorkersNeverVanish | kernel/kernel/src/proc.c:3098-3109 | the watchdog's "worker vanished" case never arises |
| IpcPoolRuns.CallNeverSpins | kernel/kernel/src/ipc.c:1346-1376 | when no worker is found, the recheck before parking sees the same state, so the call loop runs once |
| IpcPoolRuns.EndTouchesOwnOnly | kernel/kernel/src/ipc.c:545-569 | ending frees the request recorded as the worker's own and no other, also after an abort and slot reuse |
| IpcPoolRuns.CallAnswers | kernel/kernel/src/ipc.c:1280-1398 | a uid answers exactly one fresh request of this client in a slot that was idle, bound to a woken worker; any other answer leaves the request table as it was |
| IpcPoolRuns.WatchdogExact | kernel/kernel/src/proc.c:3094-3145 | a sweep freezes a request whose worker is blocked, ages the others, and releases exactly those past the limit |
| IpcPoolExact.CallExactly | kernel/kernel/src/ipc.c:1280-1398 | every reachable state: a call gets a uid if and only if a slot is idle, in per-client mode the client has no other request in flight, and an idle standing worker is on its core or one can be spawned (usable pid, a pool slot without live worker, no standing member of the core in per-core mode); a standing member then serves it. Else it retries in per-core mode with a slot free, and parks otherwise |
| IpcPoolExact.EndExactly | kernel/kernel/src/ipc.c:1556-1617 | a standing member that ends its request is idle on its core with the time stamped; any other thread of the server is gone and in no pool slot |
| IpcPoolExact.ParkExactly | kernel/kernel/src/proc.c:2708-2792 | a parking task is blocked with the time on its record; a member told to quit is gone and its record empty; no other record changes |
| IpcPoolExact.ShrinkExactly | kernel/kernel/src/ipc.c:991-1019 | the sweep marks and wakes exactly the last tired member, and nobody when none is tired |
| IpcPoolExact.KillExactly | kernel/kernel/src/proc.c:1325-1341 | a task that dies takes the request it serves with it and no other, and holds no pool slot |
| IpcPoolExact.DownExactly | kernel/kernel/src/ipc.c:625-673 | when the server goes no request is in flight and none of its threads lives; other tasks are untouched |
| IpcPoolExact.LivesExactly | kernel/kernel/src/proc.c:1886-1892 | birth and exec give an identity nobody had; a burial frees the pid of a dead task and of no other |
| IpcServer.Server.AdmitRequest | kernel/kernel/src/ipc.c:411-502 | the loop equals Admit |
| IpcServer.Server.HasOther | kernel/kernel/src/ipc.c:898-909 | true exactly when the client has another request in flight |
| IpcServer.Server.SlotWorker | kernel/kernel/src/ipc.c:742-756 | the live worker, or none with the stale slot emptied |
| IpcServer.Server.Bind | kernel/kernel/src/ipc.c:802-833 | equals BindTo |
| IpcServer.Server.PickIdle | kernel/kernel/src/ipc.c:842-854 | the first idle worker on the core, stale slots before it emptied |
| IpcServer.Server.CoreMember | kernel/kernel/src/ipc.c:881-888 | true exactly when the core has a non-retiring member |
| IpcServer.Server.CountMembers | kernel/kernel/src/ipc.c:774-781 | the number of live members |
| IpcServer.Server.Register | kernel/kernel/src/ipc.c:783-794 | the first free or stale slot takes the worker |
| IpcServer.Server.AssignWorker | kernel/kernel/src/ipc.c:930-977 | equals Assign |
| IpcServer.Server.Close | kernel/kernel/src/ipc.c:510-532 | equals Vacated (pool mode) |
| IpcServer.Server.CallPool | kernel/kernel/src/ipc.c:1280-1398 | equals Call |
| IpcServer.Server.Abort | kernel/kernel/src/ipc.c:577-622 | equals Aborted |
| IpcServer.Server.Terminate | kernel/kernel/src/proc.c:1325-1341 | equals Terminated |
| IpcServer.Server.ParkWorker | kernel/kernel/src/proc.c:2708-2792 | equals Park |
| IpcServer.Server.EndMulti | kernel/kernel/src/ipc.c:1556-1617 | equals EndServing |
| IpcServer.Server.WatchdogTick | kernel/kernel/src/proc.c:3094-3145 | equals Tick over all slots |
| IpcServer.Server.ShrinkPool | kernel/kernel/src/ipc.c:991-1019 | equals Shrink |
| IpcServer.Server.NewTask | kernel/kernel/src/proc.c:1886-1892 | a task appears under a fresh identity |
| IpcReplyRuns.RunsGood | kernel/kernel/src/ipc.c:1426-1477 | every reply cell, saved copies included, names a request of its own process, and its data is blank or a package stored for one |
| IpcReplyRuns.DeliveredIsOwn | kernel/kernel/src/ipc.c:1426-1477 | after any run, a reply delivered for uid u goes to the process that issued u; its data is u's own package unless u was answered with a null package, and even then it is blank or was stored for another request of that process |
| IpcReplyRuns.ReplyExact | kernel/kernel/src/ipc.c:1519-1544 | in every reachable state an answer delivers a package of its own request if and only if it carries one or the client's cell already holds one; otherwise what is delivered is blank or was stored for another request of the same process |
| IpcReplyRuns.SetReturnGood | kernel/kernel/src/ipc.c:1519-1544 | storing a reply keeps that, because the client is resolved by pid and uuid |
| IpcReplyRuns.AbortGood | kernel/kernel/src/ipc.c:577-622 | so does an abort or time-out |
| IpcReplyRuns.ClearGood | kernel/kernel/src/ipc.c:625-673 | so does teardown, which keeps replies already published |
| IpcReplyRuns.RestoreGood | kernel/kernel/src/proc.c:809-822 | so does restoring a saved context over a newer reply |
| IpcReplyRuns.ReplyRoundTrip | kernel/kernel/src/ipc.c:1519-1544 | a stored package is what the client's next GET_RETURN delivers, once |
| IpcReplyRuns.AbortedFails | kernel/kernel/src/proc.c:864-922 | after an abort or time-out the client's GET_RETURN fails |
| IpcReplyExact.GetReturnExactly | kernel/kernel/src/ipc.c:1426-1477 | every reachable state: without a reply in its cell the client must wait if and only if its request is in flight and expects one, has nothing due if and only if it expects none, and fails if and only if it is not in flight; with a reply there it fails exactly when that answers another uid, is told the size exactly when its room is too small, and else takes it once |
| IpcReplyExact.AskExactly | kernel/kernel/src/ipc.c:411-502 | a request enters exactly an idle slot from a live task, fresh and in the name of that task and its context, whose cell then waits |
| IpcReplyExact.SetReturnExactly | kernel/kernel/src/ipc.c:1519-1544 | the answer of a context that serves the request lands in the cell of the context that asked, exactly when that client is due one and lives, and changes no other cell |
| IpcReplyExact.ClearExactly | kernel/kernel/src/ipc.c:625-673 | teardown empties the slots it goes through and nothing else of any server, and every reply already published survives it |
| IpcReplyExact.SaveRestore | kernel/kernel/src/proc.c:809-822 | a cell copied aside comes back whatever happened to it meanwhile |
| IpcReplyExact.RunsApart | kernel/kernel/src/ipc.c:411-502 | no two slots of any servers hold the same request, in every reachable state |
| IpcReplyExact.BindExactly | kernel/kernel/src/ipc.c:802-833 | binding makes the worker named, and no other task, serve the request |
| IpcReplyExact.AdvanceExactly | kernel/kernel/src/ipc.c:330-339 | a single-task server's context serves exactly the request at the head |
| IpcReplyExact.InterruptExactly | kernel/kernel/src/proc.c:3436-3444 | in a handler the main context uses the interrupt cell and its threads their own |
| IpcReplyExact.IdentityEnds | kernel/kernel/src/proc.c:1886-1892 | after exit or exec no answer reaches the earlier identity; after exec the task lives under a new one with the same cell |
| IpcReplyRuns.NullReplyMisdelivers | kernel/kernel/src/ipc.c:1540-1542 | a concrete run where request 2 is answered with request 1's data |
| IpcWaitQueue.JoinGood | kernel/kernel/src/ipc.c:89-100 | joining keeps arrival order and one place per task |
| IpcWaitQueue.LeaveGood | kernel/kernel/src/ipc.c:1102-1124 | after leaving, the task is on no queue; the others keep their order |
| IpcWaitQueue.PopGood | kernel/kernel/src/ipc.c:120-136 | pop takes the longest-waiting task |
| IpcWaitQueue.WakeTakesOldest | kernel/kernel/src/ipc.c:1133-1176 | a wake-up removes a prefix of one queue with at most two live waiters, exactly two unless it empties the queue |
| IpcWaitQueue.LinkTailShows | kernel/kernel/src/ipc.c:89-100 | the linked items spell out the appended sequence, on every server |
| IpcWaitQueue.UnlinkShows | kernel/kernel/src/ipc.c:103-117 | and the sequence with that task cut out, from any position |
| IpcWaitQueue.WaitLists.Enqueue | kernel/kernel/src/ipc.c:89-150 | link at the tail and note the server |
| IpcWaitQueue.WaitLists.Dequeue | kernel/kernel/src/ipc.c:103-117 | unlink from any position |
| IpcWaitQueue.WaitLists.CancelWait | kernel/kernel/src/ipc.c:1102-1124 | afterwards the task's item is on no list and notes no server |
| IpcWaitQueue.WaitLists.Park | kernel/kernel/src/ipc.c:682-712 | the item moves to this server's list, or keeps its place if already there |
| IpcWaitQueue.WaitLists.PopHead | kernel/kernel/src/ipc.c:120-170 | the oldest item, off every list |
| IpcWaitQueue.WaitLists.Wakeup | kernel/kernel/src/ipc.c:1133-1176 | equals WakeSome with the batch limit |
| IpcWaitQueue.WaitLists.WakeAll | kernel/kernel/src/ipc.c:1182-1199 | the queue is empty and nobody notes this server |
| IpcWaitQueue.WaitLists.Terminate | kernel/kernel/src/proc.c:1270-1270 | a terminated task leaves its list before its memory goes |
| IpcWaitQueue.WaitLists.NewTask | kernel/kernel/src/proc.c:1893-1893 | the new task's item is on no list |
| IpcWaitQueue.WaitLists.NewServer | kernel/kernel/src/proc.c:731-745 | a server starts with an empty list |
| IpcWaitQueue.WaitLists.DropServer | kernel/kernel/src/ipc.c:1182-1199 | its waiters are woken, then its list goes; nobody notes it |
| IpcWaitRuns.RunsPicture | kernel/kernel/src/ipc.c:89-1199 | after any run of creations, parks, cancels, wakes, server teardowns and terminations the linked records spell out plain queues kept in arrival order |
| IpcWaitRuns.OneQueueEach | kernel/kernel/src/ipc.c:139-170 | in every reachable state a task is on a server's queue if and only if its waiting_on names that server, so on at most one |
| IpcWaitRuns.OffAfter | kernel/kernel/src/ipc.c:1102-1124 | after any run, cancelling or terminating a task leaves it on no queue, and dropping a server leaves nobody on its queue |
| IpcWaitRuns.WakeTakesFirst | kernel/kernel/src/ipc.c:1133-1176 | after any run a wake-up takes a prefix of one queue, with as many tasks that need waking as there is room for up to the batch limit, or all of it; whoever it takes is on no queue, and no other queue changes |
| TrunkHeap.PagesSuffice | kernel/kernel/src/mm/trunkmem.c:196-202 | the page count holds the request exactly when it fits 32 bits, and is then the least such count |
| TrunkHeap.ProductExact | kernel/kernel/src/mm/kmalloc.c:16-29 | the signed 32-bit product of km_expand and km_shrink is the byte count exactly below 2^19 pages |
| TrunkHeap.MallocExact | kernel/kernel/src/mm/trunkmem.c:153-227 | an allocation keeps the heap good and, on success, adds one live block, aligned and big enough, or on failure changes nothing, if and only if some block fits, the call is refused, or it needs fewer than 2^19 pages; it fails exactly when nothing fits and the new tail is above the top |
| TrunkHeap.MallocApart | kernel/kernel/src/mm/trunkmem.c:153-227 | the block of such an allocation shares no byte with any other live one |
| TrunkHeap.TwoGiBMovesBack | kernel/kernel/src/mm/kmalloc.c:21-29 | a request of 2 GiB with its header that finds no block moves the tail back by 2 GiB and reports success |
| TrunkHeap.FreeExact | kernel/kernel/src/mm/trunkmem.c:315-333 | the heap stays good if and only if no tail of 2 GiB or more is dropped; a live address loses exactly its block, any other changes nothing |
| TrunkHeap.ShrunkExact | kernel/kernel/src/mm/trunkmem.c:297-313 | dropping a free page-aligned tail leaves the memory ending where its header was, exactly when it is shorter than 2 GiB |
| TrunkHeap.RestartIsBlock | kernel/kernel/src/mm/trunkmem.c:326-332 | the search start is always null or a real block before the merged one |
| TrunkHeap.BytesConserved | kernel/kernel/src/mm/trunkmem.c:229-261 | reported free bytes + used payloads + headers = the whole range |
| TrunkHeap.HeapRunsExact | kernel/kernel/src/mm/trunkmem.c:153-333 | after any run of calls each safe when made, from the empty heap, blocks tile it with no two free neighbours and the live addresses are those handed out and not released |
| TrunkHeap.SmallHeapSafe | kernel/kernel/src/mm/kmalloc.c:16-29 | in a heap of less than 2 GiB every run of requests of at most 0x7fffefe0 bytes is safe |
| TrunkHeap.LiveNeverOverlap | kernel/kernel/src/mm/trunkmem.c:160-164 | live allocations of any such run are disjoint, 16-byte aligned and inside the heap |
| TrunkExact.MallocHands | kernel/kernel/src/mm/trunkmem.c:153-227 | a success is served from the first free and sufficient block from the search start on, else from fresh pages; it is cut to the request exactly when that is at most half of the payload, and the next search begins behind it |
| TrunkExact.ReleasedCanBeHad | kernel/kernel/src/mm/trunkmem.c:315-333 | a request no larger than a block just released succeeds, and the heap ends no higher than before the release |
| TrunkLinks.SaneAlways | kernel/kernel/src/mm/trunkmem.c:40-78 | the structural check passes on every block of a represented heap |
| TrunkLinks.BreakShown | kernel/kernel/src/mm/trunkmem.c:130-151 | splitting rewrites the headers to the split list |
| TrunkLinks.JoinShown | kernel/kernel/src/mm/trunkmem.c:266-292 | merging rewrites them to the merged list |
| TrunkAllocator.Trunk.FindBlock | kernel/kernel/src/mm/trunkmem.c:80-106 | finds exactly the blocks, and the checks never stop it |
| TrunkAllocator.Trunk.TryBreak | kernel/kernel/src/mm/trunkmem.c:130-151 | splits in place exactly when at most half the payload is asked for |
| TrunkAllocator.Trunk.Search | kernel/kernel/src/mm/trunkmem.c:168-189 | first fit from the start block |
| TrunkAllocator.Trunk.Malloc | kernel/kernel/src/mm/trunkmem.c:153-227 | heap and address equal the specification's for every size, and the structure is valid afterwards if and only if the call is safe |
| TrunkAllocator.Trunk.Grow | kernel/kernel/src/mm/kmalloc.c:21-29 | the tail moves by the signed product, or stays when that is above the top |
| TrunkAllocator.Trunk.Obtain | kernel/kernel/src/mm/trunkmem.c:166-213 | the first fit marked used, or new pages, or nothing when refused |
| TrunkAllocator.Trunk.Expand | kernel/kernel/src/mm/trunkmem.c:204-222 | a fresh used block over new pages, linked last |
| TrunkAllocator.Trunk.TryMerge | kernel/kernel/src/mm/trunkmem.c:266-292 | right neighbour first, then left |
| TrunkAllocator.Trunk.TryShrink | kernel/kernel/src/mm/trunkmem.c:297-313 | equals Shrunk |
| TrunkAllocator.Trunk.Free | kernel/kernel/src/mm/trunkmem.c:315-333 | equals the specification's release, and the structure is valid afterwards if and only if no tail of 2 GiB is dropped |
| TrunkAllocator.Trunk.FreeBytes | kernel/kernel/src/mm/trunkmem.c:229-261 | (top - tail) plus the free payloads |
| DmaRuns.AllocGood | kernel/kernel/src/mm/dma.c:342-367 | a caller other than pid 0 and a size that rounds to some pages: keeps the tiling; the node handed out was reusable and is exactly the page-rounded size |
| Dma.PageUpExact | kernel/kernel/src/mm/dma.c:346-346 | rounding in 32 bits is the least number of whole pages, and none exactly for size 0 and sizes above 0xfffff000 |
| DmaRuns.AllocGoodExactly | kernel/kernel/src/mm/dma.c:342-367 | an allocation that finds room leaves the nodes tiling with its own node out of reuse if and only if pid is not 0 and 0 < size <= 0xfffff000; finding none it changes nothing |
| DmaRuns.NothingShadows | kernel/kernel/src/svc.c:359-389 | a run in which a task asks for nothing and then for a page: both get one address, the page's size reads as 0, and freeing the address leaves the page owned |
| DmaRuns.CoalesceGood | kernel/kernel/src/mm/dma.c:78-98 | merging keeps the tiling and leaves no two reusable neighbours |
| DmaRuns.ReleaseGood | kernel/kernel/src/mm/dma.c:192-225 | the one-pass release keeps both |
| DmaRuns.DmaRunsGood | kernel/kernel/src/mm/dma.c:342-447 | when every allocation satisfies that condition, no node is ever empty and no two reusable ones touch |
| DmaRuns.DmaRunsChained | kernel/kernel/src/mm/dma.c:342-460 | in every reachable state, whatever was asked for, each block's nodes follow one another from end to end of it and a pinned node is not empty |
| DmaRuns.PinnedSurvives | kernel/kernel/src/mm/dma.c:100-142 | a node with p pins keeps base and size through any run with fewer than p unpins of it: frees, owner death, repeated registration and requests for nothing included |
| DmaRuns.UnpinHeld | kernel/kernel/src/mm/dma.c:131-142 | an unpin takes one pin from the node it names and none from others |
| DmaRuns.RegisteredHeld | kernel/kernel/src/mm/dma.c:418-447 | a registration never rebuilds a block that still has pins |
| DmaRuns.HandedApart | kernel/kernel/src/mm/dma.c:342-367 | memory handed out, of whatever size, overlaps no node in use or pinned of its block |
| DmaBlocks.RegisteredApartExactly | kernel/kernel/src/mm/dma.c:418-460 | a registration keeps the blocks' ranges apart if and only if it is refused, reclaims a block, or adds a range that shares no byte with any |
| DmaBlocks.AllocDisjoint | kernel/kernel/src/mm/dma.c:342-367 | after any run of such registrations, memory handed out of any block shares no byte with a node in use or pinned in any block |
| DmaBlocks.PinnedNeverHandedOut | kernel/kernel/src/mm/dma.c:100-142 | and memory pinned at some point is in nothing handed out later by any block until its last pin is gone, repeated registrations and owner deaths included |
| DmaBlocks.PinnedHandedOut | kernel/kernel/src/mm/dma.c:418-460 | a run in which two live drivers register one range: a page pinned through the first block is handed out by the second |
| DmaExact.AllocExactly | kernel/kernel/src/mm/dma.c:342-367 | a request is met exactly when that many bytes of the block meet no node in use; it gets the lowest such address and joins the nodes in use, else nothing changes |
| DmaExact.FreeExactly | kernel/kernel/src/mm/dma.c:162-176 | the caller's node at the address loses its owner, and its place in use unless pinned; without such a node nothing changes |
| DmaExact.SizeExactly | kernel/kernel/src/mm/dma.c:178-190 | the size of the caller's node at the address, or 0 |
| DmaExact.PinExactly | kernel/kernel/src/mm/dma.c:100-114 | a pin is granted exactly to the owner of a node at the address, for 1 byte up to its size, below the ceiling, and adds one pin there |
| DmaExact.UnpinExactly | kernel/kernel/src/mm/dma.c:131-142 | an unpin is granted exactly at a pinned node; it takes one pin and, with the last pin of an ownerless node, its place in use |
| DmaExact.ReleaseExactly | kernel/kernel/src/mm/dma.c:192-225 | of a dead task's nodes exactly the pinned stay in use, ownerless; all other nodes in use stay |
| DmaExact.RegisteredExactly | kernel/kernel/src/mm/dma.c:418-460 | the first block of the range that is pinned or whose owner is the caller or dead decides: refused if pinned, else rebuilt for the caller; without one a block is added unless the table is full |
| DmaExact.RangeExactly | kernel/kernel/src/mm/dma.c:390-397 | refused exactly for a base inside a page with fewer than two pages; else the most whole pages that fit |
| DmaTable.Table.Coalesce | kernel/kernel/src/mm/dma.c:78-98 | the loop equals Coalesce |
| DmaTable.Table.Alloc | kernel/kernel/src/mm/dma.c:342-367 | the loop equals Alloc |
| DmaTable.Table.Free | kernel/kernel/src/mm/dma.c:162-176 | the loop equals Free |
| DmaTable.Table.Pin | kernel/kernel/src/mm/dma.c:100-114 | the loop equals Pin, refusing at the ceiling |
| DmaTable.Table.Unpin | kernel/kernel/src/mm/dma.c:131-142 | the loop equals Unpin |
| DmaTable.Table.Release | kernel/kernel/src/mm/dma.c:192-225 | the loops equal Release on every block |
| DmaTable.Table.Set | kernel/kernel/src/mm/dma.c:382-460 | equals registration, size rounding included, once the caller is accepted |
| DmaTable.Table.Register | kernel/kernel/src/mm/dma.c:418-460 | the loop equals Registered |
| ShmPool.AllocGood | kernel/kernel/src/mm/shm.c:92-121 | at least one page: the slab stays tiled with spare runs apart, and a smallest sufficient run is granted, cut to size unless the table is full |
| ShmPool.FreeGood | kernel/kernel/src/mm/shm.c:123-146 | one merging pass restores "no two spare neighbours" |
| ShmPool.AllocGoodExactly | kernel/kernel/src/mm/shm.c:92-121 | that holds exactly for requests of at least one page, or with nothing spare, or with the table full |
| ShmPool.NoneUndone | kernel/kernel/src/mm/shm.c:92-146 | a request for no pages given back at once leaves the slab as it was |
| ShmPool.ZeroPagesAlias | kernel/kernel/src/mm/shm.c:92-146 | after a request for no pages, a release and a request hand out pages still in use |
| ShmInvariant.FreeItemGood | kernel/kernel/src/mm/shm.c:439-472 | freeing returns one run and removes one segment, the windows staying ordered |
| ShmInvariant.AttachGood | kernel/kernel/src/mm/shm.c:516-593 | attaching counts one space, or changes nothing |
| ShmInvariant.DetachGood | kernel/kernel/src/mm/shm.c:596-625 | detaching uncounts it; the run returns to the slab only with the last space gone |
| ShmInvariant.ReleaseOrphansGood | kernel/kernel/src/mm/shm.c:668-687 | the orphan sweep keeps everything through its merges |
| ShmRuns.CreateGood | kernel/kernel/src/mm/shm.c:249-367 | creation by reuse, split or growth keeps everything, and every failure path returns its run, when a contiguous request rounds to some pages |
| ShmSegments.PagesPositive | kernel/kernel/src/mm/shm.c:250-258 | the 32-bit rounding yields pages exactly for 0 < size <= 0xffffffe0 |
| ShmRuns.CreateGoodExactly | kernel/kernel/src/mm/shm.c:249-367 | for every size a creation keeps everything if and only if it does not get a contiguous segment of no pages |
| ShmRuns.CreateRefused | kernel/kernel/src/mm/shm.c:300-318 | a call refused for room or records keeps everything, whatever its size |
| ShmScenes.WrappedSizeAliases | kernel/kernel/src/mm/shm.c:249-367 | a run with one request of 0xffffffe1 bytes ends with two segments in use on the same physical pages |
| ShmRuns.CreateMakes | kernel/kernel/src/mm/shm.c:249-367 | success adds exactly one fresh segment of the kind, key and owner asked for, long enough, a contiguous one exactly as long as asked; failure adds none |
| ShmRuns.ShmRunsGood | kernel/kernel/src/mm/shm.c:249-716 | so does every run whose contiguous sizes are from 1 to 0xffffffe0 |
| ShmRuns.ContiguousNeverAlias | kernel/kernel/src/mm/shm.c:249-367 | in every state such a run reaches, contiguous segments have disjoint physical and window ranges inside slab and window |
| ShmRuns.RefsCountSpaces | kernel/kernel/src/mm/shm.c:516-625 | refs is the number of spaces attached, and an attached segment is in use |
| ShmRuns.AddrFindsExactly | kernel/kernel/src/mm/shm.c:415-423 | in every reachable state the address of a segment finds that segment if and only if no segment without pages stands before it at the address |
| ShmExact.SlabExactly | kernel/kernel/src/mm/shm.c:82-121 | a request for pages is met exactly when so many pages in a row meet no run in use; the run handed out joins those in use, cut to size unless the table is full |
| ShmExact.SlabFreeExactly | kernel/kernel/src/mm/shm.c:123-146 | the run at the address leaves the runs in use, and no other; an unknown address changes nothing |
| ShmExact.CreateExactly | kernel/kernel/src/mm/shm.c:249-367 | a segment is made exactly when a free block of its kind is long enough or its window has room, and, if contiguous, so many pages in a row are vacant |
| ShmExact.AttachExactly | kernel/kernel/src/mm/shm.c:516-593 | a segment in use is attached exactly to a space that has it not yet, has a place and gets page tables; the space then has it, its count is one more, and nothing else changes |
| ShmExact.DetachExactly | kernel/kernel/src/mm/shm.c:596-625 | a segment is detached exactly from a space that has it; its count is one less, or it is gone when that was the last and the caller frees it |
| ShmExact.UnknownExactly | kernel/kernel/src/mm/shm.c:405-413 | a number that names no segment in use attaches, detaches and removes nothing |
| ShmExact.RemoveExactly | kernel/kernel/src/mm/shm.c:697-716 | a segment is removed exactly when no space has it |
| ShmExact.OrphansExactly | kernel/kernel/src/mm/shm.c:668-687 | exactly the dead owner's unattached segments go |
| ShmExact.FreeItemMerges | kernel/kernel/src/mm/shm.c:439-472 | a freed block becomes one block with its idle neighbours of the same kind; no other block changes |
| ShmScenes.EmptySegmentHides | kernel/kernel/src/mm/shm.c:750-761 | a run in which a segment without pages hides the next: detaching the address of an attached segment leaves it attached |
| ShmTable.Slab.Alloc | kernel/kernel/src/mm/shm.c:82-121 | the loops equal the slab's Alloc |
| ShmTable.Slab.Free | kernel/kernel/src/mm/shm.c:123-146 | the loops equal the slab's Free |
| ShmTable.Segments.Make | kernel/kernel/src/mm/shm.c:249-367 | equals Create, for every 32-bit size |
| ShmTable.Segments.Release | kernel/kernel/src/mm/shm.c:439-472 | equals FreeItem |
| ShmTable.Segments.MapInto | kernel/kernel/src/mm/shm.c:516-593 | equals Attach |
| ShmTable.Segments.UnmapFrom | kernel/kernel/src/mm/shm.c:596-625 | equals Detach |
| ShmTable.Segments.UnmapAt | kernel/kernel/src/mm/shm.c:750-761 | equals DetachAt |
| ShmTable.Segments.ReleaseOrphansOf | kernel/kernel/src/mm/shm.c:668-687 | the walk equals ReleaseOrphans |
| ShmTable.Segments.AddSpace | kernel/kernel/src/proc.c:731-745 | a new address space has nothing attached |
| DlWindow.MarkOne | kernel/kernel/src/mm/mmu.c:87-96 | marking a slot in the packed bitmap changes that slot and no other |
| DlWindow.MarkPacked | kernel/kernel/src/mm/mmu.c:87-96 | so the bytes keep spelling out the slot table |
| DlWindow.FirstFit | kernel/kernel/src/mm/mmu.c:167-181 | on the packed bytes, the skipping scan returns the lowest start of a long enough free run, and none exactly when there is none |
| DlWindow.Space.MapRun | kernel/kernel/src/mm/mmu.c:186-213 | maps all pages or, after undoing, none |
| DlWindow.Space.Alloc | kernel/kernel/src/mm/mmu.c:153-214 | all or nothing, with the exact reasons for refusal, marks, mappings and free pages |
| DlWindow.Space.Protect | kernel/kernel/src/mm/mmu.c:216-252 | accepted exactly when word, range and every page are good; then only permissions in the range change, else nothing |
| DlWindow.Space.Free | kernel/kernel/src/mm/mmu.c:254-285 | the range's pages go, exactly their frames join the free list, and exactly the slots covered whole are unmarked; every mapped page stays in a marked slot |
| DlWindow.Space.Release | kernel/kernel/src/mm/mmu.c:287-316 | no page mapped, no slot marked, and every frame that was mapped is free again |
| DlClone.CloneWindow | kernel/kernel/src/mm/mmu.c:318-368 | a clone succeeds if and only if frames and page tables suffice for every page, and then each page has a copy on a frame of its own with the same permissions; one that fails at page f leaves exactly the pages of the slot of f before f mapped in the child, in no marked slot, and exactly their frames off the free list |
| DlClone.CloneSlot | kernel/kernel/src/mm/mmu.c:343-363 | the page loop of one slot: it gets through if and only if frames and tables suffice for the slot, and stops at the first page without one |
| DlClone.ReleaseChild | kernel/kernel/src/mm/mmu.c:287-316 | the release of the child drops the pages of marked slots only |
| CapsRuns.CapRunsGood | kernel/kernel/src/cap.c:212-393 | every run keeps every held cap derived from something issued |
| CapsRuns.CapsHaveProvenance | kernel/kernel/src/cap.c:307-393 | each held cap has the kind and object of the kernel's root cap, of a cap a root holder minted, or of a cap an installed rule describes (object words included), with rights included in it |
| CapsRuns.InstancesWereAlive | kernel/kernel/src/cap.c:212-222 | a held cap on a task names an identity that was really given to that pid, never a later task with the pid |
| CapsRuns.RootArrives | kernel/kernel/src/cap.c:248-393 | a task that holds root after a step and not before was booted by the kernel, execed with uid <= 0 or under a root rule, granted by a holder, or forked from a holder or from a task without owner |
| CapsRuns.RootHasSource | kernel/kernel/src/cap.c:248-393 | in every reachable state each holder of root got it at such a step of the run |
| CapsRuns.RootNeverReturns | kernel/kernel/src/cap.c:212-456 | once nobody holds root, no uid is <= 0 and no rule hands it out, no run without kernel boots and ownerless forks brings it back |
| CapsRuns.GrantGood | kernel/kernel/src/cap.c:363-382 | granting adds no right |
| CapsRuns.GrantForwards | kernel/kernel/src/cap.c:363-382 | a grant fills at most one free slot of the target's process with an attenuated copy of the named cap, whose holder has root or whose cap carries CAP_GRANT |
| CapsRuns.MintGood | kernel/kernel/src/cap.c:307-354 | what is minted is of a mintable kind and names an object of it; a task only while alive |
| CapsRuns.PolicyAddGood | kernel/kernel/src/cap.c:423-456 | rules only grow |
| CapsHome.OwnerExactly | kernel/kernel/src/proc.c:3385-3392 | the walk returns the live process at which the chain of live threads over father pids ends, finds nobody when it ends at a gap, and never ends if and only if the chain does not |
| CapsHome.ActsForOwnExactly | kernel/kernel/src/cap.c:81-100 | in every reachable state these are equivalent for a task whose process (the one of its address space) lives: that process's caps, whatever they are, decide its calls; its children start with them; the walk returns that process; the chain of fathers ends at a live process of its own space |
| CapsHome.ForkExactly | kernel/kernel/src/proc.c:1903-1909 | in every reachable state a child holds at most what its father's own process holds if and only if the walk returns that process, or another that holds no more, or finds nobody while that process holds full root |
| CapsConfined.StraightExactly | kernel/kernel/src/proc.c:1288-1352 | from a world where every thread's father is alive, older and of its space, a step keeps that if and only if no exit leaves a live thread behind and no thread detaches to another space |
| CapsConfined.OrderlyRunsLeadHome | kernel/kernel/src/proc.c:3385-3392 | after any run of such steps every live task acts for its own process |
| CapsConfined.AuthorityOnlyHandedOn | kernel/kernel/src/cap.c:356-382 | for any processes and all their descendants, over any run in which their tasks fork only while acting for their own process, nothing is execed or minted inside and no outsider grants to them, whatever else the outside does: none ever holds a cap that does not attenuate one they held at the start |
| CapsOrphans.OrphanForksRoot | kernel/kernel/src/proc.c:1903-1936 | a run in which a user process without a cap forks a thread, which forks a thread and exits: the second thread's process lives and holds nothing, the walk finds nobody, and the thread's child holds root |
| CapsOrphans.ReuseActsForAnother | kernel/kernel/src/proc.c:3385-3392 | a run in which the exited thread's pid goes to a root process: the second thread's calls are authorized, it mints, and its child holds root |
| CapsOrphans.DetachActsForInit | kernel/kernel/src/svc.c:218-221 | a run in which a thread of a process without a cap detaches: the walk returns init, its calls are authorized, and its child holds root |
| CapsWalk.EndlessForever | kernel/kernel/src/proc.c:3385-3392 | a walk to the owner that has not ended after as many steps as there are tasks never ends |
| CapsWalk.FoundForever | kernel/kernel/src/proc.c:3385-3392 | and one that ends has the same answer with any more steps |
| CapsOrphans.WalkNeedNotEnd | kernel/kernel/src/proc.c:3385-3392 | a run after which two threads are each other's fathers by pid reuse, so the walk from either never ends |
| CapsRuns.ExecHoldsExactly | kernel/kernel/src/cap.c:248-289 | after exec the cnode is the root cap for uid <= 0, then the matching rules' caps in order, as far as 64 slots go |
| CapsRuns.ExecForgets | kernel/kernel/src/cap.c:279-289 | it depends only on uid, command, policy and the live tasks |
| CapsExact.GrantExactly | kernel/kernel/src/cap.c:363-382 | a grant gives the target's process one more cap, the named one with the rights asked for, exactly when the granter may pass it on, some right is left and there is a place; nobody loses a cap |
| CapsExact.MintExactly | kernel/kernel/src/cap.c:307-354 | minting gives the caller's process the cap exactly when it holds root, the kind may be minted, what it names is there and there is a place |
| CapsExact.ObjectExactly | kernel/kernel/src/cap.c:212-246 | what the raw words name: a target exactly while it lives, under its present identity |
| CapsExact.RevokeExactly | kernel/kernel/src/cap.c:384-393 | the slot named is empty afterwards, its cap gone, and every other slot as it was |
| CapsExact.SetuidExactly | kernel/kernel/src/svc.c:271-279 | made exactly for a caller whose process holds root; leaving user 0 strips that process of every cap |
| CapsExact.ForkHolds | kernel/kernel/src/proc.c:1902-1940 | the child holds exactly what the owner process holds, or root when the walk finds none |
| CapsExact.MatchExactly | kernel/kernel/src/cap.c:248-266 | a path without a space matches exactly the command lines whose first word it is |
| CapsExact.PolicyExactly | kernel/kernel/src/cap.c:248-266 | a command line gets a cap exactly when an entry of a matching rule yields it |
| CapsExact.PolicyAddExactly | kernel/kernel/src/cap.c:423-456 | an entry is added exactly for a root holder while its rule or the table has room; then every line the path matches gets that cap on top of what it got, and every other line what it got |
| CapsExact.ExitExactly | kernel/kernel/src/proc.c:1272-1357 | an exit ends the task and, for a process, the threads it forked itself, and nobody else |
| CapTable.Table.CnodeInsert | kernel/kernel/src/cap.c:51-61 | the first free slot, or dropped when full |
| CapTable.Table.CnodeHasRoot | kernel/kernel/src/cap.c:73-79 | true exactly when some slot holds root |
| CapTable.Table.OnExec | kernel/kernel/src/cap.c:248-289 | the nested loops equal ExecCnode |
| CapTable.Table.MintCap | kernel/kernel/src/cap.c:307-354 | equals Mint |
| CapTable.Table.GrantCap | kernel/kernel/src/cap.c:363-382 | equals Grant |
| CapTable.Table.AddPolicy | kernel/kernel/src/cap.c:423-456 | equals PolicyAdd |
| CapTable.Table.FindOwner | kernel/kernel/src/proc.c:3385-3392 | the walk over fathers equals Owner |
| CapTable.Table.Boot | kernel/kernel/src/proc.c:1902-1912 | equals Boot |
| CapTable.Table.Fork | kernel/kernel/src/proc.c:1902-1940 | equals Fork |
| CapTable.Table.SetUid | kernel/kernel/src/svc.c:271-279 | equals Setuid |
| CapTable.Table.RevokeCap | kernel/kernel/src/cap.c:384-393 | equals Revoke |
| CapTable.Table.ExitTask | kernel/kernel/src/proc.c:1272-1357 | a process takes the threads it forked itself with it, a thread none |
| CapTable.Table.DetachTask | kernel/kernel/src/svc.c:218-221 | pid 0 becomes the father |
| PciPlan.AlignUpLeast | reports/q8b-pcied-20261102/resource-plan-test.c:15-17 | the least multiple at or above the value |
| PciPlan.WordDecodes | reports/q8b-pcied-20261102/resource-plan-test.c:56-57 | the window word reads back as exactly its granule-aligned window |
| PciPlan.EmptyDecodes | reports/q8b-pcied-20261102/resource-plan-test.c:58-58 | the empty word decodes to base > limit |
| PciPlan.PlanBusBars | reports/q8b-pcied-20261102/resource-plan-test.c:19-61 | on success every BAR is aligned to its size, pairwise disjoint and inside the aperture, whatever the bus numbers |
| PciPlan.Planner.PlanResources | reports/q8b-pcied-20261102/resource-plan-test.c:19-61 | the recursive code equals PlanBus |
| PciPlan.Planner.PlaceAll | reports/q8b-pcied-20261102/resource-plan-test.c:24-39 | the BAR loops equal PlaceBus |
| PciPlan.Planner.BridgeAll | reports/q8b-pcied-20261102/resource-plan-test.c:40-59 | the bridge loop equals PlanBridges |
| PciWindows.SiblingsSeparate | reports/q8b-pcied-20261102/resource-plan-test.c:46-53 | with distinct secondary buses, the subtrees of two bridges of a bus share no bus |
| PciWindows.PlanBusWindows | reports/q8b-pcied-20261102/resource-plan-test.c:40-59 | planning an untouched subtree keeps every window exact |
| PciWindows.PlanIsExact | reports/q8b-pcied-20261102/resource-plan-test.c:19-61 | whole plan: every BAR below the root placed; each window holds the BARs behind its bridge and no other; sibling windows disjoint |
| PciWindows.EmptyExactly | reports/q8b-pcied-20261102/resource-plan-test.c:55-58 | in a successful plan a bridge's window is empty (base > limit) if and only if no BAR lies on or below its secondary bus |
| PciExact.PlanExactly | reports/q8b-pcied-20261102/resource-plan-test.c:19-61 | planning succeeds if and only if every bridge below the root has bus numbers that lead down and the layout from the bottom of the aperture ends inside it; the limit on nesting refuses nothing more |
| Horspool.ShiftTable | kernel/lib/src/kstring.c:203-207 | the filled table equals the shift function |
| Horspool.NoMatchSkipped | kernel/lib/src/kstring.c:214-216 | no match starts inside a shift |
| Horspool.Search | kernel/lib/src/kstring.c:193-220 | equals naive search: the first occurrence, or none exactly when there is none; indices in bounds, shifts at least one |
| FineClock.Gcd | kernel/kernel/include/kernel/fine_clock.h:9-11 | Euclid's loop returns a common divisor that is a combination of both |
| FineClock.PeriodUsec | kernel/kernel/include/kernel/fine_clock.h:8-14 | the least positive number of microseconds spanning whole ticks when at most 10; 0 exactly when no such number up to 10 exists |
| FineClock.Anchor | kernel/kernel/include/kernel/fine_clock.h:19-31 | a sample that agrees is moved by less than a period onto counter * 1000000 = usec * hz; any other stands |
| FineClock.RepublishingNeverSteps | kernel/kernel/src/proc.c:3309-3313 | any two anchored publications give every counter value the same time |
| FineClock.InterpolationLags | kernel/kernel/include/sysinfo.h:86-97 | the truncated 32.32 reciprocal never runs ahead and lags by less than 1 + delta/2^32 ns |
| FineClock.ReadingsNeverGoBack | kernel/kernel/include/sysinfo.h:86-97 | truncation included, a reader using a later anchored pair never gets less than from an earlier one at the same counter value |
| FineClock.Publisher.Renew | kernel/kernel/src/proc.c:3298-3340 | cached period and reciprocal follow the frequency; the published pair is the anchored one; the sequence stays even; between two anchored publications of one frequency no reader is set back |

## Left out

- Board code, MMIO, drivers, TLB and cache maintenance, FPU and context frames: the hardware is not visible to the model; "the mapping changed" and "the task resumed" stand for it.
- Architecture page-table code: an abstract map from pages to frames and permissions.
- The single-task IPC ring and its context hijacking (`proc_ipc_do_task`, `saved_state`): only its effect on replies is modelled (head slot, save and restore of reply cells); a FIFO ring would add easy members.
- Reply cells in place: IpcReply keeps them as values, so the sharing of one `proto_t` buffer between stores is not captured, and allocation failure inside `proto_copy` is not modelled.
- Data passed as IPC arguments, `user_proto_ok` and the capability gate of `proc_ipc_call`: checks without a history to reason about.
- Client core migration: a request records the core its client had when it called.
- The user stack copy of fork, threads' stacks, and kernel-mode writes into user buffers.
- The `prev`/`next` pointers of the DMA node list and of the shared-memory segment list: both lists are sequences that the methods reassign. The heap's headers and the IPC wait list are modelled pointer by pointer.
- DMA peer-mapping tracker (`dma_peer_map_*`) and address translation: bookkeeping beside the allocator.
- `shm_get`'s key lookup, `check_access` permissions, `shm_set_owner`: no effect on aliasing or counts.
- The sharing of one frame allocator between parent and child during `dl_window_clone`: DlClone works on values, so update in place is not captured there; page contents are copied in one step and not modelled.
- Capability check functions (`proc_cap_check_*`): read-only loops over the cnode whose contents the theorems describe; the session id counter.
- 64-bit wrap-around of `aligned` in `fine_clock_anchor`: the counter is an unbounded integer here.
- `bar_phys` and the controller offset in the PCI plan: one addition per BAR beside the address that is proved.
- String lengths beyond 2^31: the `int` lengths of `strstr` are unbounded here.
- `dma_set`'s caller check: DmaTable.Table.Set starts once it has passed.
- The 1 KiB sub-page allocator, run-time accounting, core selection, priorities, and every liveness claim.
- ext2 and GPT lookups: they rest on a `memcmp` that does not decide equality.
- The trunk allocator under other callers than `kmalloc`: sizes are its 32 bits, for which the 32-bit page count is never cut.
- ShmRuns.ContiguousNeverAlias: requires contiguous sizes from 1 to 0xffffffe0, because CreateGoodExactly shows the invariant is lost otherwise.
- DmaRuns.DmaRunsGood: requires allocations by a pid other than 0 with sizes from 1 to 0xfffff000, because AllocGoodExactly shows the tiling is lost otherwise.
- TrunkHeap.HeapRunsExact: requires each call to be safe when made, because MallocExact and FreeExact show the heap is lost otherwise.
- DmaBlocks.AllocDisjoint: requires registrations that keep ranges apart, because RegisteredApartExactly and PinnedHandedOut show pinned memory is handed out otherwise.
