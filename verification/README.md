# Kernel core of KhhraspokOS, modelled and proved in Dafny

KhhraspokOS is a small 64-bit multiprocessor kernel. This project models its memory, task and
file-read core and proves what that core keeps over every input, every reachable state and every
run. `dafny verify dfyconfig.toml` checks all of it.

The memory part goes from bits to whole processes. `BitMap.dfy` is the packed bit map,
`Frames.dfy` the page-frame allocator on top of it, `PageEntries.dfy` the page-entry macros,
`PageTables.dfy` the four-level walk and `mapPg`, whose tables come from that same allocator.
`UserSpace.dfy` and `Lifecycle.dfy` put processes and kernel threads into the 2 MiB user window, one
page table each, swapped through a single directory entry; `ProcessRuns.dfy` follows them over whole
runs from creation to reaping, and `Boot.dfy` leads from the boot code's tables to the first state.
`PageManager.dfy` holds the object and the loops (`mapPg`, the identity mapping, the ELF loader, the
page handling of both `createTask` functions and of `freeTask`), each proved equal to its
specification.

The task part is a step system (`Scheduler.dfy`): create, load, tick, yield, end and reap on the
task table, one ready queue per processor, a load queue and a reap queue, with the class that
implements the steps. `Threads.dfy` adds which process a task belongs to and what `endTask` reaches,
`KernelRuns.dfy` joins every scheduler step with what it does to memory. `Queues.dfy` is the linked
queue those sequences stand for, `Locks.dfy` the spin lock.

The file and text part is `Fat16.dfy` (sector reads and cluster chains), `Strings.dfy` (`strtok`),
`Paths.dfy` (`parsePath`), `ArgPage.dfy` (the argument page of a thread) and `Numbers.dfy` (`itoa`,
`printHex`).

Where imperative code is modelled, the object is a class with the fields of the source and each
method's contract gives its new state as a function of the old one; the theorems are lemmas about
those functions and about runs of them. Physical memory is a table of 512-word rows, one per frame.
Unsigned shifts and masks of whole fields are written as division and remainder. Steps are atomic.

The directory entry of the window is not part of what the runs keep in order. It may hold the table
of a task that is gone, as it does on a processor that waits for work after its last task ended;
every task installs its own entry before it runs, and no operation trusts the one it finds.

## What the proofs found

Some properties hold only under a condition that the code does not check. Each is proved as an
equivalence, so the condition is exact.

- A task created while the slot `tasksCount` is in use overwrites a live task, because numbers are
  handed out as `tasksCount++` while `freeTask` decrements the count (`Scheduler.CreateKeepsIff`;
  `Scheduler.SlotClashIsReachable` gives a run of six steps that gets there).
- `endTask` of a main thread visits only the numbers up to `tasksCount` and misses threads beyond it
  (`Threads.EndMarksAllIff`; `Threads.MissedThread` gives a run). Reaping the main thread then frees
  the page table that such a thread runs on (`KernelRuns.ReapKeepsTablesIff`).
- A task that calls `endTask` after it was already marked loses its thread header, and the next
  tick forgets it: it stays in the table and in no queue (`Scheduler.EndSelfPlacedIff`;
  `Threads.ForgottenThread` gives a run).
- A process numbered 128 or above never gives its frames back, because the signed 8-bit `pid` is
  compared with the unsigned `tid` (`Lifecycle.ReapAccountsIffTidFits`;
  `ProcessRuns.LeakIsReachable` gives a state).
- `readDisk` returns foreign bytes when the request runs past the sectors it fetched
  (`Fat16.ReadDiskExactIff`); none of the FAT16 reads does.
- `freadCallback` steps by 65536 bytes whatever the cluster size. Its caller gets the file if and
  only if that is the cluster size or the file lies in one piece within the first 65536 bytes
  (`Fat16.FreadIsFileIff`), and with clusters of up to 32 KiB the buffer overflows for every file of
  more than one cluster (`Fat16.BufferFitsIff`).
- `itoa` is wrong for the smallest 32-bit number and `printHex` overflows from 16^9 on
  (`Numbers.ItoaParsesIff`, `Numbers.AccumulatorFitsIff`).

The presence test of `mapPg` reads the write flag (bit 1) and not the present flag (bit 0). It is
right because every caller passes both; the tree invariant states that the two bits of every table
entry agree, and `PageEntries.EntryRoundTrip` says that they do exactly when the flags passed agree.

## Model

| member | source | states |
|---|---|---|
| BitMaps.SetBitChangesOne | src/kernel/libk/kdsa.cpp:26-32 | clearing and setting with the mask changes the named bit of a byte and none of the other seven |
| BitMaps.SetBitUnpack | src/kernel/libk/kdsa.cpp:21-35 | writing the byte back changes exactly one bit of the whole map, counted from the most significant bit of each byte |
| BitMaps.BitMap.constructor | src/kernel/libk/kdsa.cpp:3-9 | a map of len bits has len / 8 bytes, all clear |
| BitMaps.BitMap.Get | src/kernel/libk/kdsa.cpp:11-19 | returns the named bit of the map |
| BitMaps.BitMap.Set | src/kernel/libk/kdsa.cpp:21-35 | succeeds up to length * 8 and then updates one bit of the map |
| Frames.RunKeepsHintSound | src/kernel/memory/paging/paging.cpp:62-115 | every frame below the search hint is taken after any run of requests, reservations and releases |
| Frames.HintedSearchIsFullScan | src/kernel/memory/paging/paging.cpp:62-78 | after any such run the hinted search grants the lowest free frame, the one a scan from frame 0 finds, and grants one whenever one is free |
| Frames.HintSavesScanning | src/kernel/memory/paging/paging.cpp:62-96 | what all requests of a run look at is what the hint moved plus what releases took it back, so without releases no bit is looked at twice |
| Frames.RunConservesMemory | src/kernel/memory/paging/paging.cpp:81-115 | freeMem + usedMem and freeMem minus 4096 times the number of clear bits never change |
| Frames.RunKeepsReserved | src/kernel/memory/paging/paging.cpp:62-96 | when clients free only what they were granted, reserved frames and frames still held stay taken and disjoint |
| Frames.ReservedNeverGranted | src/kernel/memory/paging/paging.cpp:62-96 | no request grants a reserved frame or a frame somebody still holds |
| Frames.CountersStayUnsigned | src/kernel/memory/paging/paging.cpp:88-90 | along such runs the unsigned counters never wrap |
| Frames.RegionMarksCoverRegion | src/kernel/memory/paging/paging.cpp:27-36 | the region loop marks every frame that shares a byte with an unusable region; it marks one frame past it if and only if the end lies in the upper half of a page, and no other |
| Frames.MapCoversMemory | src/kernel/memory/paging/paging.cpp:17-25 | the map has a bit for every whole page below the end of the last region, but for at most seven |
| Frames.BootFramesNeverGranted | src/kernel/memory/paging/paging.cpp:17-59 | from the initial state on, no frame with a byte below 0x9000, in 0x80000-0xfffff, 0x100000-0x3fffff, 0x200000-0x2ffffff or in an unusable region is ever granted |
| Frames.PgFrAllocator.constructor | src/kernel/memory/paging/paging.cpp:17-59 | after initialisation exactly the kernel's frames and those the region loop covers are marked, the hint is sound and the counters add up |
| Frames.PgFrAllocator.MarkRegion | src/kernel/memory/paging/paging.cpp:29-35 | marks the frames of one unusable region and no other |
| Frames.PgFrAllocator.AllocRange | src/kernel/memory/paging/paging.cpp:38-58 | marks the frames of an address range, keeping the accounting |
| Frames.PgFrAllocator.AllocPg | src/kernel/memory/paging/paging.cpp:104-115 | marks a clear frame and moves one page from free to used; leaves a marked one alone |
| Frames.PgFrAllocator.FreePg | src/kernel/memory/paging/paging.cpp:81-96 | clears a marked frame, moves one page back and lowers the hint to it |
| Frames.PgFrAllocator.ReqPg | src/kernel/memory/paging/paging.cpp:62-78 | grants the first clear frame from the hint on and puts the hint behind it; null when the hint is past the loop bound |
| PageEntries.EntryRoundTrip | src/kernel/includes/memory.hpp:57-61 | reading an entry back gives the frame and the flags it was made of; the two presence tests agree on it exactly when P and R were passed alike |
| PageEntries.OrBelow | src/kernel/includes/memory.hpp:57 | setting flags below the address field adds them |
| PageEntries.UserFlagKeepsEntry | src/kernel/memory/paging/paging.cpp:150-153 | setting the user flag in a stored entry sets bit 2 and changes neither its frame nor the bits the walk tests |
| PageTables.EnsureTableKeepsTree | src/kernel/memory/paging/paging.cpp:175-187 | hanging a zeroed fresh frame into an absent entry keeps the tables a tree of distinct frames in use whose entries agree on both presence bits |
| PageTables.EnsureTableKeepsWalks | src/kernel/memory/paging/paging.cpp:175-217 | and changes no translation from any table |
| PageTables.ReachUnique | src/kernel/includes/memory.hpp:45-48 | in the tree two walks that meet in a table took the same index at every level |
| PageTables.PutLeafTranslates | src/kernel/memory/paging/paging.cpp:219-225 | a leaf write changes exactly the translations that read that leaf |
| PageTables.SamePageIndices | src/kernel/includes/memory.hpp:45-48 | four equal indices mean the same page of the 48-bit address space, and conversely |
| PageTables.EnoughFrames | src/kernel/memory/paging/paging.cpp:175-215 | as many free frames as missing tables suffice to complete the walk, and exactly that many are taken |
| PageTables.BuildPathKeeps | src/kernel/memory/paging/paging.cpp:167-217 | completing the walk only extends the tree by fresh frames, changes no translation and leads to the table it returns |
| PageTables.MapPageChangesOneTranslation | src/kernel/memory/paging/paging.cpp:167-226 | after mapPg the page of vaddr translates to paddr's frame with the flags, every other page translates as before or stays absent, the tables are still a tree, and only new tables took frames |
| PageTables.MapPageShut | src/kernel/memory/paging/paging.cpp:167-226 | mapping without the user flag opens no page directory entry to user code |
| PageTables.MapPageOpens | src/kernel/memory/paging/paging.cpp:167-226 | mapping with the user flag opens at most one entry, that of the directory on the walk |
| PageManager.PgMgr.DescendTo | src/kernel/memory/paging/paging.cpp:189-202 | one table level: the state afterwards is that of the specification, and the result is the table the entry leads to |
| PageManager.PgMgr.MapPg | src/kernel/memory/paging/paging.cpp:167-226 | the three levels and the leaf store compute the specified mapping |
| PageManager.PgMgr.MapIdentity | src/kernel/memory/paging/paging.cpp:141-144 | the identity loop computes the specified mapping of the range |
| PageManager.PgMgr.OpenUserWindow | src/kernel/memory/paging/paging.cpp:149-155 | sets the user flag on the way to the user directory and nulls its entry |
| PageManager.PgMgr.MapKernel | src/kernel/memory/paging/paging.cpp:141-156 | the constructor after the allocator computes the specified first machine and user directory |
| UserSpace.MapInWindow | src/kernel/memory/paging/paging.cpp:204-225 | mapping a page of the user window touches nothing above the user directory |
| UserSpace.SetSlotKeeps | src/kernel/task/task.cpp:186 | swapping the directory entry keeps every process and what it owns |
| UserSpace.FirstPageKeeps | src/kernel/task/task.cpp:243-258 | mapping the first page under a null entry makes a fresh page table; the invariant holds and no other process is touched |
| UserSpace.FirstPageOwned | src/kernel/task/task.cpp:253-258 | that step takes exactly two frames, the page and the table, and the process owns them |
| UserSpace.NextPageKeeps | src/kernel/task/task.cpp:290-293 | every further page takes exactly one frame, adds it to what the process owns and writes only to that process's table |
| Lifecycle.GrowKeeps | src/kernel/task/task.cpp:372-439 | n pages need n free frames and write only to the process's own table |
| Lifecycle.CreateKeeps | src/kernel/task/task.cpp:243-324 | building a process of n pages takes n + 1 frames, writes only to its own table, leaves every other process as it was and puts the directory entry back |
| Lifecycle.CreateSound | src/kernel/task/task.cpp:243-324 | the same from every sound state, whatever the directory entry holds, which is put back |
| Lifecycle.AddThreadSound | src/kernel/task/task.cpp:342-451 | creating a kernel thread from the kernel's own header takes three frames, hangs a new table, writes to no table that was there and leaves the thread's entry installed |
| Lifecycle.FreeFramesClears | src/kernel/task/task.cpp:91-103 | releasing the entries from the last down and then the table clears exactly the frames the process owns |
| Lifecycle.ReapKeeps | src/kernel/task/task.cpp:79-116 | reaping a main thread frees exactly what the process owned and keeps the rest in order, also while the directory entry still holds the dead process's table |
| Lifecycle.ReapAccountsIffTidFits | src/kernel/task/task.cpp:84 | after freeTask every frame in use is accounted for if and only if tid < 128 |
| Lifecycle.ViewKept | src/kernel/task/task.cpp:186 | a step that writes to one window table and the directory entry changes nothing that a process with another table sees, at any address |
| Lifecycle.ProcessSees | src/kernel/task/task.cpp:243-293 | in every reachable state a process sees its own pages in order from the start of the window, each in a frame it owns, and nothing in the rest of the window |
| Lifecycle.NoSharedFrames | src/kernel/task/task.cpp:186 | two processes never see the same frame through the window |
| Lifecycle.PagesAreUserAccessible | src/kernel/memory/paging/paging.cpp:149-155 | every entry on the walk to a page of a dispatched process has the present and the user bit |
| Lifecycle.InstalledShowsThread | src/kernel/task/task.cpp:362-364 | with the entry of a kernel thread installed, walks of the window go through that thread's table, show its two pages and nothing else, and are closed to user code |
| Lifecycle.OutsideKept | src/kernel/task/task.cpp:186 | addresses outside the window translate the same whatever is installed |
| Lifecycle.ClosedToUsers | src/kernel/memory/paging/paging.cpp:141-155 | user code reaches no address outside the window, whatever is installed |
| ProcessRuns.StepKeeps | src/kernel/task/task.cpp:79-451 | every enabled creation of a process, thread or kernel thread, dispatch and reap is possible and keeps the frame partition and the table tree; every other process keeps its frames and its view of memory, every kernel thread its table and its view |
| ProcessRuns.DispatchShows | src/kernel/task/task.cpp:185-187 | in the memory after dispatching a process the window shows that process's pages in order, user-accessible, and nothing else; after dispatching a kernel thread that thread's two pages through its own table; outside the window nothing changes |
| ProcessRuns.ThreadShows | src/kernel/task/task.cpp:342-451 | after creating a thread its process has its old pages where they were and two or three more, and its window is installed, so the entry copied into the thread's header is its process's |
| ProcessRuns.KernelClosed | src/kernel/memory/paging/paging.cpp:141-155 | in every state of every run user code reaches nothing outside the window |
| ProcessRuns.RunKeepsInvariant | src/kernel/task/task.cpp:79-451 | so does every run of such steps, for every kernel thread and every process no step is about |
| ProcessRuns.RunsConserveFrames | src/kernel/task/task.cpp:79-451 | a run that ends with the processes it began with leaves the frame map exactly as it was, plus three frames for every kernel thread created, whatever was created, grown, dispatched and reaped in between |
| ProcessRuns.IdleAgain | src/kernel/task/task.cpp:79-451 | between any two moments of a run without processes, and with no new kernel thread in between, no frame was lost or gained |
| ProcessRuns.ProcessLife | src/kernel/task/task.cpp:79-439 | from every sound state a process of any size that fits, dispatched and with any number of threads, can be created, and reaping it restores the frame map |
| ProcessRuns.LeakIsReachable | src/kernel/task/task.cpp:84 | process 128 can be created, and reaping it leaves frames in use that nobody owns |
| Boot.BootTablesGood | src/boot/enablePaging.asm:9-43 | the boot code's tables form a tree in frames the allocator has marked, and none of their directory entries is open to user code |
| Boot.BootTranslates | src/boot/enablePaging.asm:9-43 | they map the first 2 MiB to themselves, the second 2 MiB to themselves in the low 32 bits, and nothing else |
| Boot.MapRangeTranslates | src/kernel/memory/paging/paging.cpp:141-144 | the identity loop maps exactly its pages to themselves, present and writable, opens nothing to user code, and keeps every other translation and the tree |
| Boot.RangeFits | src/kernel/memory/paging/paging.cpp:141-144 | three free frames per 2 MiB block suffice for it to run through |
| Boot.OpenWindowGood | src/kernel/memory/paging/paging.cpp:149-155 | the end of the constructor leaves a tree of tables with a way to the user directory and a null entry in it |
| Boot.OpenWindowTranslates | src/kernel/memory/paging/paging.cpp:149-155 | it makes the pages of the window absent and changes no other translation |
| Boot.BootInvariant | src/kernel/memory/paging/paging.cpp:132-156 | from the initialised allocator and the boot code's tables, with enough free frames, the constructor reaches a state that satisfies the invariant all runs start from; then every page of memory is at itself, the window and everything beyond memory is absent, and no address is open to user code |
| PageManager.PgMgr.LoadSegment | src/kernel/elfLoader/elfLoader.cpp:33-51 | maps ceil(memsz / 4096) fresh pages from the current address on and counts them in 8 bits |
| PageManager.PgMgr.LoadPHDR | src/kernel/elfLoader/elfLoader.cpp:20-97 | maps the pages of all loadable segments back to back from the start of the window, returns the address behind them and the page count modulo 256 |
| PageManager.SegmentPlace | src/kernel/elfLoader/elfLoader.cpp:33-51 | each PT_LOAD segment gets ceil(memsz / 4096) pages behind those of the loadable segments before it, other segments get none |
| PageManager.SegmentsPresent | src/kernel/elfLoader/elfLoader.cpp:33-51 | every byte of every loadable segment of a built process lies in a page of that process, at its place behind the earlier segments |
| PageManager.CreateIsLoad | src/kernel/task/task.cpp:243-324 | the specified creation is: null the entry, n page steps, read the entry, restore it |
| PageManager.PgMgr.BuildProcess | src/kernel/task/task.cpp:243-324 | loading, the stack page, reading the entry, the argument page and restoring the entry compute the specified creation |
| PageManager.PgMgr.BuildThread | src/kernel/task/task.cpp:342-439 | installing the table and mapping two or three pages compute the specified growth of the main thread's process |
| PageManager.PgMgr.BuildKernelThread | src/kernel/task/task.cpp:342-451 | nulling the entry and mapping two pages without the user flag compute the specified creation of a kernel thread |
| PageManager.PgMgr.FreeTask | src/kernel/task/task.cpp:83-104 | the release loop computes the specified frame map, and does nothing when pid and tid differ |
| Scheduler.QueuesLive | src/kernel/task/task.cpp:39-77 | under the invariant every queued or running number is a live task with its headers, so no step meets a null pointer |
| Scheduler.TickKeeps | src/kernel/task/task.cpp:118-190 | a tick keeps every live task in exactly one place and tasksCount the number of live slots |
| Scheduler.PopLiveOrder | src/kernel/task/task.cpp:167-183 | the queue is served first in, first out: the first task that has not ended runs with twice its estimate as 8-bit slice, the ended ones before it go to the reaper in order, the rest stays |
| Scheduler.TickReapsEnded | src/kernel/task/task.cpp:134-137 | a running task that has ended is in the reap queue after the next tick |
| Scheduler.LoadKeeps | src/kernel/task/task.cpp:51-77 | so does a round of the loader |
| Scheduler.LoaderRoundRobin | src/kernel/task/task.cpp:61-69 | the first n waiting threads go to n different processors in turn, each to the processor its turn names, never to the first |
| Scheduler.NewProcessQueued | src/kernel/task/task.cpp:262-328 | a new process, not ended and with its number as pid, is at the end of the first processor's queue, and no other task is touched |
| Scheduler.NewProcessServed | src/kernel/task/task.cpp:328 | so it is dispatched or reaped within (k + 1) * 256 ticks of the first processor when k tasks were waiting there |
| Scheduler.NewThreadQueued | src/kernel/task/task.cpp:412-460 | a new thread has the pid it was created with; the loader waits on the first processor, every other thread at the end of the load queue |
| Scheduler.ThreadIsLoaded | src/kernel/task/task.cpp:51-77 | in every run a thread with k others before it in the load queue is put on a ready queue by the loader's round k + 1: the first processor's for loader and reaper, the next in turn for others |
| Scheduler.ReapKeeps | src/kernel/task/task.cpp:39-48 | so does a round of the reaper, which frees one live task that is in no other place |
| Scheduler.CreateKeepsIff | src/kernel/task/task.cpp:262-328 | entering a new task keeps the invariant if and only if the slot tasksCount is free |
| Scheduler.SlotClashIsReachable | src/kernel/task/task.cpp:412-419 | a run from the first state reaches a live slot tasksCount |
| Scheduler.EndSelfPlacedIff | src/kernel/task/task.cpp:510-533 | after endTask and the next tick every live task is in exactly one place if and only if the caller had not been marked before |
| Scheduler.StepKeeps | src/kernel/task/task.cpp:39-533 | every enabled step is defined, touching no missing task or header, and keeps the invariant |
| Scheduler.RunKeepsInvariant | src/kernel/task/task.cpp:39-533 | the invariant holds in every state of every run |
| Scheduler.TickProgress | src/kernel/task/task.cpp:134-183 | a tick of its processor serves a waiting task or uses up part of 256 * position + slices left |
| Scheduler.OtherStepQuiet | src/kernel/task/task.cpp:39-533 | no other step makes a task in that queue wait longer |
| Scheduler.BoundedWaiting | src/kernel/task/task.cpp:134-183 | a task with k tasks ahead of it is dispatched on its processor or handed to the reaper before that processor has ticked (k + 1) * 256 times, in every run |
| Scheduler.SliceHolds | src/kernel/task/task.cpp:140-145 | in every run a task that neither ends nor yields keeps its processor for the slices it was given, losing one per tick |
| Scheduler.FullSlice | src/kernel/task/task.cpp:134-183 | it runs through n ticks of its processor, and tick n + 1, not an earlier one, puts it at the end of the queue |
| Scheduler.YieldGivesUp | src/kernel/task/task.cpp:474-487 | yielding leaves the task no slices, so the next tick puts it at the end, and touches no other task |
| Scheduler.BootInvariant | src/kernel/task/task.cpp:18-32 | the empty table with empty queues satisfies the invariant |
| Scheduler.TaskMgr.NewProcess | src/kernel/task/task.cpp:201-331 | enters a process at tasksCount with that number as 8-bit pid and queues it on the first processor, or returns -1 when the table is full |
| Scheduler.TaskMgr.NewThread | src/kernel/task/task.cpp:334-463 | enters a thread and queues it for the loader, or on the first processor if it is the loader; 0 when the table is full |
| Scheduler.TaskMgr.LoaderRound | src/kernel/task/task.cpp:56-75 | moves the first waiting number to the next processor in turn, or to the first for loader and reaper |
| Scheduler.TaskMgr.ReaperRound | src/kernel/task/task.cpp:43-46 | empties the slot of the first number in the reap queue and decrements the 8-bit count |
| Scheduler.TaskMgr.Schedule | src/kernel/task/task.cpp:118-190 | counts down the slice or puts the old task away and starts the first task that has not ended, sending ended ones to the reaper |
| Scheduler.TaskMgr.EndChildren | src/kernel/task/task.cpp:490-507 | marks the threads of the process among the numbers 0 to tasksCount and no other task |
| Scheduler.TaskMgr.EndTask | src/kernel/task/task.cpp:510-533 | a main thread first marks its threads; then the running task is marked, or its thread header dropped when it was marked already |
| Scheduler.TaskMgr.TaskReady | src/kernel/task/task.cpp:469-471 | true exactly when the slot is empty |
| Threads.EndMarksAllIff | src/kernel/task/task.cpp:490-507 | after the loop of endTask(pid) every thread of the process is marked if and only if those with numbers beyond tasksCount were marked before |
| Threads.EndCallEnds | src/kernel/task/task.cpp:490-533 | one call of endTask() ends the caller and, if it is a main thread, its threads with numbers up to tasksCount; every other task keeps its entry and nothing moves; so the whole process is ended when no thread has a number beyond tasksCount |
| Threads.EndMainOrderlyIff | src/kernel/task/task.cpp:503-533 | after waiting for the threads it visited, ending a main thread leaves no thread without one if and only if none is left, as when all their numbers were at most tasksCount |
| Threads.StepOrderly | src/kernel/task/task.cpp:39-533 | every lawful step keeps: a live task is a kernel thread, a main thread, or has a living main thread; what waits for the reaper has ended |
| Threads.NoThreadOutlivesProcess | src/kernel/task/task.cpp:79-116 | over every lawful run, when a main thread is about to be reaped no thread of its process is left |
| Threads.MissedThread | src/kernel/task/task.cpp:493-494 | a lawful run reaches a main thread with a live thread that endTask does not visit |
| Threads.ForgottenThread | src/kernel/task/task.cpp:525-532 | a lawful run reaches a running thread that is already marked; its own endTask leaves it alive and in no queue |
| KernelRuns.TablesThere | src/kernel/task/task.cpp:185-186 | every live task's directory entry belongs to a process or kernel thread that is still there |
| KernelRuns.StepKeeps | src/kernel/task/task.cpp:39-533 | every enabled step is possible in the task table and in memory and keeps both in order and in agreement |
| KernelRuns.RunKeepsInvariant | src/kernel/task/task.cpp:39-533 | in every state of every run of the whole kernel no live task runs on a freed table, and every frame in use is the kernel's or one live process's |
| KernelRuns.SchedulerRun | src/kernel/task/task.cpp:39-533 | the task table of every run of the whole kernel goes through a lawful run of the scheduler |
| KernelRuns.StepsDoTheirWork | src/kernel/task/task.cpp:39-77 | ending, yielding, loading and reaping steps end, deprive of slices, load and remove the task they are about |
| KernelRuns.TickShowsWindow | src/kernel/task/task.cpp:167-187 | after a tick that gives a processor to task u, memory has the window of u's process, or of kernel thread u |
| KernelRuns.KernelClosed | src/kernel/memory/paging/paging.cpp:141-155 | in every state of every run of the whole kernel user code reaches nothing outside the window |
| KernelRuns.ThreadJoinsProcess | src/kernel/task/task.cpp:334-463 | a new thread's pages are added to the process that started it, behind those it had, and the thread runs on that process's table |
| KernelRuns.NewcomerHasTable | src/kernel/task/task.cpp:201-463 | a new process has its main thread's number and the pages it asked for, a new kernel thread a table that was nobody's |
| KernelRuns.IdleConserves | src/kernel/task/task.cpp:79-116 | whenever no process is alive, the frames in use are those of the start and three for every kernel thread |
| KernelRuns.StartUp | src/kernel/kernelMain.cpp:50-52 | creating the shell, the reaper and the loader is such a run from the first state |
| KernelRuns.ReapKeepsTablesIff | src/kernel/task/task.cpp:83-104 | reaping a main thread leaves every live task its table if and only if no thread of the process is left |
| Queues.Queue.Push | src/kernel/libk/includes/kdsa.hpp:195-219 | appends to the sequence the chain stands for |
| Queues.Queue.Pop | src/kernel/libk/includes/kdsa.hpp:221-235 | removes and returns the first element, null on an empty queue |
| Queues.Queue.IsEmpty | src/kernel/libk/includes/kdsa.hpp:44-46 | true exactly when the sequence is empty, also when last is stale |
| Queues.FifoConserves | src/kernel/libk/includes/kdsa.hpp:192-236 | in every history what came out followed by what is left is what went in, in order |
| Queues.Replay | src/kernel/libk/includes/kdsa.hpp:192-236 | the linked queue answers every history of pushes and pops as the mathematical queue does |
| Strings.JoinSplit | src/kernel/libk/kstring.cpp:157-193 | joining the pieces with the original delimiters restores the string |
| Strings.SplitJoin | src/kernel/libk/kstring.cpp:157-193 | splitting a join of delimiter-free pieces gives back the pieces and the delimiters |
| Strings.SplitUnique | src/kernel/libk/kstring.cpp:157-193 | the split is the only way to cut the string into delimiter-free pieces at its delimiters |
| Strings.Strlen | src/kernel/libk/kstring.cpp:6-14 | the length of the terminated string at a position |
| Strings.Strtok.Call | src/kernel/libk/kstring.cpp:157-193 | returns a pointer to a terminated copy of the next piece, empty pieces included, and null when none is left |
| Strings.Tokenize | src/kernel/libk/kstring.cpp:157-193 | iterating strtok terminates, yields exactly the pieces (none for the empty string) and leaves every delimiter overwritten |
| Paths.Strncpy | src/kernel/libk/kstring.cpp:34-42 | copies at most n bytes of the string and no terminator |
| Paths.ParsePath | src/kernel/filesystem/pathParser.cpp:27-50 | builds a doubly linked list equal to the split at slashes, each name cut to 8 bytes |
| ArgPage.Memcpy | src/kernel/libk/kstring.cpp:48-57 | copies exactly the given bytes and leaves the rest of the destination |
| ArgPage.LERoundTrip | src/kernel/task/task.cpp:392 | a pointer stored as eight bytes reads back |
| ArgPage.LowByteFirst | src/kernel/task/task.cpp:392 | stored pointers have their low byte first |
| ArgPage.CopyStrings | src/kernel/task/task.cpp:373-386 | copies every argument behind the previous one, counting them |
| ArgPage.WriteArgv | src/kernel/task/task.cpp:388-394 | stores the addresses of the strings behind them without touching them |
| ArgPage.ThreadArgs | src/kernel/task/task.cpp:372-397 | argc is the number of pieces, argv follows the strings, and argv[i] points to a terminated copy of piece i that ends before argv |
| Fat16.ReadDiskExactIff | src/kernel/drivers/ATA/ata.cpp:47-61 | readDisk returns exactly the requested bytes, whatever follows its buffer, if and only if nail % 512 + size % 512 <= 512 |
| Fat16.ReadLBA | src/kernel/drivers/ATA/ata.cpp:29-44 | returns the sectors in order |
| Fat16.ReadDisk | src/kernel/drivers/ATA/ata.cpp:47-61 | returns the slice of the fetched memory that the offset selects |
| Fat16.AllReadsWithinSectors | src/kernel/filesystem/FAT16/fat16.cpp:90-139 | header, directory items, FAT entries and clusters all meet that condition on volumes with 512-byte sectors |
| Fat16.VolumeLayout | src/kernel/filesystem/FAT16/fat16.cpp:35-39 | in header fields: all 32-byte items of the root directory lie behind the tables and before every cluster, cluster 2 starts where they end, clusters are disjoint and adjacent |
| Fat16.TableLayout | src/kernel/filesystem/FAT16/fat16.cpp:41-51 | entry c lies inside the first table for c < 256 * tableSize and is read low byte first |
| Fat16.GetFATEntry | src/kernel/filesystem/FAT16/fat16.cpp:41-51 | returns the 16-bit table entry on the disk |
| Fat16.ChainAcyclic | src/kernel/filesystem/FAT16/fat16.cpp:204-205 | a chain that reaches the end mark visits no cluster twice |
| Fat16.FreadCallback | src/kernel/filesystem/FAT16/fat16.cpp:198-212 | terminates on every chain that ends, and the buffer then holds the 65536-byte windows of the chain in order, the rest unchanged |
| Fat16.FilePlace | src/kernel/filesystem/FAT16/fat16.cpp:35-39 | byte r of cluster j of a file lies, in header fields, behind the tables, the root directory and the clusters with lower numbers |
| Fat16.FreadIsFileIff | src/kernel/filesystem/FAT16/fat16.cpp:198-212 | the first size bytes are the file's, for all disk contents with this chain, if and only if clusters have 65536 bytes or the file lies in consecutive clusters within its first 65536 bytes |
| Fat16.BufferFitsIff | src/kernel/task/task.cpp:238-241 | what is written fits the size + 65535 bytes allocated if and only if the file has no more clusters than ceil(size / 65536): always for 65536-byte clusters, only with a single cluster for clusters up to 32768 bytes |
| Fat16.FreadSafeIff | src/kernel/filesystem/FAT16/fat16.cpp:198-212 | for the cluster sizes that occur the read is right and stays in its buffer if and only if clusters have 65536 bytes or there is only one |
| Numbers.Reverse | src/kernel/libk/kstdlib.cpp:4-12 | the exclusive-or swaps reverse the first length cells and leave the rest |
| Numbers.ItoaParsesIff | src/kernel/libk/kstdlib.cpp:14-48 | the result reads back as the number if and only if it is not the smallest 32-bit number |
| Numbers.StoreDigits | src/kernel/libk/kstdlib.cpp:33-38 | stores at most ten characters, lowest digit first |
| Numbers.Itoa | src/kernel/libk/kstdlib.cpp:14-48 | leaves the numeral and a terminator within the 20 bytes |
| Numbers.EmitAccumulate | src/kernel/libk/kstdio.cpp:19-35 | taking the accumulator apart prints the hexadecimal digits, most significant first |
| Numbers.HexReadsBack | src/kernel/libk/kstdio.cpp:19-28 | the hexadecimal digits, 0 to 9 and A to F, read back as the number and have no leading zero |
| Numbers.AccumulatorFitsIff | src/kernel/libk/kstdio.cpp:16-30 | the accumulator stays within int64 if and only if the number is below 16^9 |
| Numbers.PrintHex | src/kernel/libk/kstdio.cpp:13-36 | prints "0x0" and then exactly the hexadecimal digits, nothing more for numbers that are not positive |
| Locks.StepKeeps | src/kernel/preKernel.asm:350-364 | every instruction keeps: the bit is set exactly while one processor holds the lock |
| Locks.MutualExclusion | src/kernel/preKernel.asm:350-364 | on every interleaving of any number of processors there are never two holders |
| Locks.FreeLockIsTaken | src/kernel/preKernel.asm:350-360 | on a free lock a caller or a spinner holds the lock after two instructions of its own, on a taken one it spins and changes nothing |
| Locks.ReleaseFrees | src/kernel/preKernel.asm:362-364 | a release frees the lock |
| Locks.ReleaseKeepsIff | src/kernel/preKernel.asm:362-364 | a release keeps that if and only if the caller holds the lock or nobody does |

## Left out

- The kernel heap and `Stack`: allocation is a fresh object or a fresh sequence.
- Images with thread-local storage: the loader's inner page counter shadows the outer one, so later pages map over them.
- Threads that themselves create threads: they work on a copied process header whose page count is not shared.
- The end of a kernel thread: the loader and the reaper never end, and their window tables are never freed.
- What a processor that waits for work still reads through a directory entry whose table has been freed meanwhile.
- Processors' address translation caches and races on the shared directory entry: steps are atomic, and memory is seen from one processor.
- Running out of frames: `mapPg` does not test for null, so its mapping is stated for at least as many free frames as missing tables; `reqPg` on a full map would read past the bit map and is stated for a free frame or a hint beyond the loop bound.
- A loader with a single active processor: its counter then never wraps; the step system has at least two processors.
- The spin in `endTask(pid)` until a thread has disappeared: it changes nothing, and that it ends is not claimed. `endTask` on a full table, where the loop runs past the table. The timer handler's test for more than two tasks.
- The command-line arguments of a process, which are laid out like those of a thread.
- Processes of more than 512 pages, which would leave the one directory entry of the window; releasing frame 0.
- What programs write into their pages; saved registers and segment selectors.
- Strings.Strtok.Call: does not model a call with null before any string, because every caller starts with a string.
- Numbers.Itoa: base 10 only, the base that all calls in the kernel pass.
- Numbers.PrintHex: numbers from 16^9 on, where the signed accumulator overflows (`Numbers.AccumulatorFitsIff`).
- Paths.ParsePath: does not model the empty path, for which `strtok` returns null and the copy reads from it.
- Fat16.FreadCallback: clusters whose following sector is past the end of the disk, because `readDisk` fetches that sector too.
- Frames.PgFrAllocator.constructor: memory maps that end below the kernel heap, or mark a frame past the last whole byte of the map, where the source writes outside its buffer.
- Frames.PgFrAllocator.ReqPg: a full map with the hint below length * 8, where the source reads past its buffer.
- PageManager.PgMgr.LoadPHDR: images with thread-local storage, as above.
- PageManager.PgMgr.BuildThread: thread-local storage; threads with kernel privilege in a user process, which no caller creates.
- Scheduler.BootInvariant: a single active processor, as above.
- `findInDir`, `findItem`, path names in directories, the descriptor table, and 64-bit wrap-around of offsets for cluster numbers below 2.
- Interrupt controllers, timers, keyboard, video, PCI, ACPI, descriptor tables, system calls, the boot code, user programs and the user library.
