# Linux 0.11: what its small cores promise

A Dafny model of the stateful cores of the Linux 0.11 kernel, with proofs of the global invariants that no
single function of the kernel shows. Kernel code is not preempted: it runs until it sleeps, and interrupts only
complete transfers, so the models are state machines over the stretches between sleeps, and imperative methods
for the code inside one. Where both exist, the methods are proved to make the steps of the state machine.

| files | part of the kernel | main results |
|---|---|---|
| `Paging`, `PagingSteps`, `PagingRuns`, `CleanPages`, `Memory` | `mm/memory.c`, the memory half of `kernel/fork.c` | exact reference counts over every run; copy-on-write implements separate address spaces; a task cannot see what others store; a clean page is what was put there; fork is a snapshot or leaves no trace |
| `Elevator`, `Requests`, `BlockDevice` | `kernel/blk_drv/ll_rw_blk.c`, `end_request` | two rising sweeps, no starvation with a bound fixed in advance, a consistent request table, at most 21 writes |
| `Buffers`, `BufferCache`, `BufferLinks`, `BufferIndex` | `fs/buffer.c` | one buffer per block for any number of sleeping callers; hash chains and free list in place |
| `BlockLayer` | both | cache and request queues on the same buffers: each keeps what the other rests on, and no queued buffer starves |
| `Zones`, `FileSystem`, `FileLaws` | `fs/bitmap.c`, `_bmap`, `fs/truncate.c`, `fs/file_dev.c` | where the disk keeps each byte; files are plain byte sequences over every run; what is written can be read back; no block is doubled or lost, with the exact condition for truncate |
| `WaitQueue`, `Scheduler`, `Timers`, `TimerList` | `kernel/sched.c` | no sleeper is lost and wake_up reaches all; no ready task starves; timers are never early, and late under an exact condition |
| `Malloc`, `Allocator` | `lib/malloc.c` | live objects are disjoint, counts exact, empty pages and descriptors recycled |
| `ExecArgs`, `NewStack`, `Execve` | `fs/exec.c` | the argument block comes out as it went in, with the exact condition for scripts |
| `Pipe` | `fs/pipe.c` | first in, first out for every interleaving; each call's bytes go in once and in order |
| `Tty`, `TtyQueues` | `kernel/chr_drv/tty_io.c` | line editing as a fold over the input, exactly while readers leave unfinished lines alone; finished lines are safe |
| `Terminal`, `TerminalLaws`, `Console` | `kernel/chr_drv/console.c` | the EGA scroll and the copying scroll show the same screen; what every control sequence does to it, from its bytes |
| `Counting`, `Options` | | sequences without repetitions; values that may be missing |

`dafny verify dfyconfig.toml` checks everything.

## How the model reads the code

* Pages, blocks and words are values; addresses are frame, slot or cell numbers. A linked structure is kept as
  the kernel keeps it, in arrays of links, beside a ghost list that says what the links spell; 0 (or the table
  size) stands for NULL.
* Physical memory is untyped: the page directory, page tables and user pages are the same frames, so only the
  invariant keeps a user store out of a page table. Index blocks and data blocks share one device in the same way,
  and the allocator's links are stored in the free objects themselves.
* Machine widths are modelled where they matter: the byte of `mem_map`, 32-bit addresses in `fork` and `execve`,
  unsigned cursor arguments, 16-bit block numbers, signed characters.
* `get_free_page`, `bread` and the other calls across a boundary are parameters or state (`free`, `bad`, `busy`,
  `page`, `room`), so that every failure the code handles is a case here.

## Where the code does not do what one would expect

* `fs/buffer.c:180` stores through `b_next` even when the bucket was empty. Cell 0 stands for what is at address 0;
  the store is part of the model and is proved to harm no list.
* `fs/exec.c:161` tests an unsigned difference for being negative. It never is: strings that do not fit run
  below the argument pages. `CopyStrings` returns `Overrun` for exactly those.
* A script run with no argument at all gets a wrong argument count (`fs/exec.c:309`): `SplicedRight` and
  `NoArgumentsShift`.
* `add_timer` does not shorten the delay of the timer behind the new one (`kernel/sched.c:296-305`): `OthersOnTime`
  and `OlderTimerLate`.
* `tty_read` does not stop at a newline (`kernel/chr_drv/tty_io.c:262-273`): a reader who asks for more than the
  finished lines gets the unfinished one too, out of the reach of erase and kill. `RunIsFold` and `DeliveredSettled`
  say exactly when reading and editing do not mix, `TypedAheadIsRead` shows a case where they do.
* `ESC 7` and `ESC 8` compare the column instead of the character (`kernel/chr_drv/console.c:505-508`): `SaveWorks`
  and `RestoreWorks` say when they work all the same, `SaveFails` shows a cursor for which they do not.
* `put_page` does not look whether the address is mapped already (`mm/memory.c:223-230`): `MapHeldExact`.
* `new_block` panics when the free block it finds is held by somebody (`fs/bitmap.c:98-99`): `NewBlockTakes`.
* `truncate` loses the blocks below an index block it cannot read, and blocks somebody holds (`fs/bitmap.c:58-61`):
  `TruncateConserves` gives the exact condition.
* Two requests with one key can break the elevator's order (`EqualKeysBreakSweeps`); that the cache keeps one buffer
  per block is what prevents it.

## Model

| member | source | states |
|---|---|---|
| PagingSteps.GrabKeeps | mm/memory.c:63-85 | Handing out a free frame keeps the invariant (counts exact, page tables private, every writable mapping the only one of its frame, counted frames at one offset per task area); the frame is in nobody's mapping and no task reads anything else than before. |
| PagingSteps.ReleaseKeeps | mm/memory.c:91-101 | Giving a held frame back keeps the invariant and what every task reads. |
| PagingSteps.MakeTableKeeps | mm/memory.c:173-179 | Hanging a zeroed frame into an empty directory entry keeps the invariant and what every task reads. |
| PagingSteps.DropTableKeeps | mm/memory.c:119-130 | Freeing an emptied page table keeps the invariant and what every task reads. |
| PagingSteps.UnmapKeeps | mm/memory.c:122-127 | Freeing one mapped page keeps the invariant; only that linear page reads differently. |
| PagingSteps.ShareKeeps | mm/memory.c:180-193 | Sharing one page keeps the invariant: both entries are read-only afterwards, the count is one higher, and the new place reads what the old one does; the other bits are in `CleanPages.SharedEntries`. |
| PagingSteps.MapHeldKeeps | mm/memory.c:206-230 | Mapping a held frame at an empty entry keeps the invariant; only that linear page reads differently. |
| PagingSteps.MapHeldExact | mm/memory.c:223-230 | put_page does not look whether the entry is empty: the invariant survives if and only if it is, or names a frame below LOW_MEM; otherwise a frame stays counted that nobody names. |
| PagingSteps.UnprotectKeeps | mm/memory.c:236-240 | Giving write access back is safe exactly in the case the code does it, at count 1: the mapping is then the only one, and nobody reads anything else. |
| PagingSteps.CopyOutKeeps | mm/memory.c:241-249 | Splitting a shared page keeps the invariant; all tasks, the faulting one included, read what they read before. |
| PagingSteps.StoreKeeps | mm/memory.c:272-284 | A store through a writable entry changes that one linear page: no page table, no other task's page. |
| PagingRuns.StepKeeps | mm/memory.c:63-353 | Each of the eleven indivisible changes keeps the whole invariant. |
| PagingRuns.RunKeeps | mm/memory.c:63-353 | So does every run of them, of any length, in any interleaving. |
| PagingRuns.RolesOf | mm/memory.c:63-133 | Each frame has exactly one role (not managed, free, held by a kernel path, one page table, user page); its count says which, and is at most 63. |
| PagingRuns.CountsOverRuns | mm/memory.c:63-101 | Over every run the byte of mem_map is the exact number of references and stays below 128, and get_free_page never hands out a frame that anything names. |
| PagingRuns.StepMeans | mm/memory.c:152-353 | Seen by the tasks, a change is at most one put, one copy of a page or one store in memories that are not shared; write protection, counts, page tables and copy-on-write are invisible. |
| PagingRuns.RunMeans | mm/memory.c:152-353 | The pager refines separate address spaces: after any run all tasks read what the same run leaves in memories that were never shared. |
| PagingRuns.OthersCannotBeSeen | mm/memory.c:152-249 | Isolation: a run in which no change is to a page of task n leaves every page of task n reading the same. |
| CleanPages.SharedEntries | mm/memory.c:180-193 | Bit by bit: sharing clears the write bit and nothing else. The copy has the frame, the dirty and user bits and the rest of the original, and so has a counted original itself; one below LOW_MEM does not change. |
| CleanPages.NewEntry | mm/memory.c:206-249 | A page put in place, or copied out on a write fault, is present, writable, the user's and clean. |
| CleanPages.ChangedBits | mm/memory.c:236-270 | Giving write access back changes no other bit, and a store sets the dirty bit. |
| CleanPages.CleanStep | mm/memory.c:63-353 | No change of any kind takes a dirty bit away or alters the frame behind an entry that is clean afterwards. |
| CleanPages.CleanRun | mm/memory.c:63-353 | So does no run during which the entry keeps its frame. |
| CleanPages.CleanAsPut | mm/memory.c:306-353 | What try_to_share relies on at line 326: after any run a clean page reads exactly as it did when it was put there. |
| CleanPages.CleanAsCopied | mm/memory.c:241-249 | A clean page that a write fault copied out reads as the shared page did at the fault. |
| CleanPages.CleanAsShared | mm/memory.c:180-193 | A page that is clean at the end of a run was clean when it was shared, and reads as it did then. |
| MemoryManager.CountsDetermined | mm/memory.c:63-133 | Mappings and tables determine mem_map: two good states with the same ones have the same counts. |
| MemoryManager.RolledBack | kernel/fork.c:66-70 | A copy that stopped half way, followed by freeing the same range, leaves every count and every page as before. |
| MemoryManager.Memory.MemInit | mm/memory.c:425-437 | After mem_init exactly the frames from start_mem to end_mem are free, all others are marked used, and the invariant holds. |
| MemoryManager.Memory.GetFreePage | mm/memory.c:63-85 | The highest free frame, zeroed and counted once; 0 exactly when no frame is free. |
| MemoryManager.Memory.FreePage | mm/memory.c:91-101 | Drops one reference; both panics, and no others, are stated; below LOW_MEM nothing happens. |
| MemoryManager.Memory.FreePageTables | mm/memory.c:107-133 | Everything in the range is unmapped and its tables freed, nothing outside is touched, neither panic of free_page is reached; misaligned or zero start panics. No page of an address in the range is there any more, with the same limit on the size. |
| MemoryManager.Memory.FreeOneTable | mm/memory.c:118-131 | One directory entry: its pages and then its table are freed, nothing else changes. |
| MemoryManager.Memory.FreeEntries | mm/memory.c:122-127 | The inner loop frees every page of the table. |
| MemoryManager.Memory.CopyPageTables | mm/memory.c:152-197 | The fork snapshot: on success every linear page of the target range reads like the source page did, and nothing else reads differently; out of memory it stops; a table in the way is the panic. Address by address, while rounding the size up stays below 2^32: the page of each byte in the range reads like the source's, and of the kernel's memory the first 640 KB are there. |
| MemoryManager.Memory.CopyTable | mm/memory.c:165-194 | One directory entry of the copy. |
| MemoryManager.Memory.CopyRow | mm/memory.c:180-193 | The inner loop shares every present page, read-only on both sides. |
| MemoryManager.Memory.CopyEntry | mm/memory.c:181-192 | One entry: frames at or above LOW_MEM become read-only on both sides and counted, frames below only in the copy. |
| MemoryManager.Memory.PutPage | mm/memory.c:206-230 | A held page appears at an empty linear page, with a new page table if needed; without memory for that nothing is mapped; a page that was there is covered and not given back. |
| MemoryManager.Memory.UnWpPage | mm/memory.c:232-249 | Afterwards the entry is writable and its frame is the only mapping; all tasks read what they read before; out of memory nothing changes. |
| MemoryManager.Memory.WriteVerify | mm/memory.c:272-284 | Before a system call writes for a task, the page it writes is that task's alone, with the same contents. |
| MemoryManager.Memory.StoreWord | mm/memory.c:258-270 | A store by a task, with the write fault it may cause, changes that word of that page of that task and nothing any other task reads. |
| MemoryManager.Memory.GetEmptyPage | mm/memory.c:288-296 | A zeroed page appears; on failure counts and contents are as before. |
| MemoryManager.Memory.LoadPage | mm/memory.c:408-422 | The page read from the executable appears; on failure counts and contents are as before. |
| MemoryManager.Memory.TryToShare | mm/memory.c:306-353 | Shares only a present, clean, counted page of another task at the same offset; what both read afterwards is what the other read; a page already mapped there is the panic. |
| MemoryManager.Memory.SharePage | mm/memory.c:363-384 | The page comes from some other task with the same executable, where it is clean; otherwise nothing changes. |
| MemoryManager.Memory.DoNoPage | mm/memory.c:388-423 | After a page fault the page holds zeros, the executable's bytes or a clean twin's page; out of memory nothing has changed. |
| MemoryManager.Memory.CopyMem | kernel/fork.c:44-72 | The child gets a snapshot of the whole area, or nothing: on failure mem_map and every page are exactly as before. |
| MemoryManager.Memory.CopyProcess | kernel/fork.c:91-138 | The page of every byte below the limit reads in the new task's 64 MB as it does in the old one's; the frame of the task structure is the caller's on success and free again on failure, when no count and no page has changed. |
| Elevator.RankOrders | kernel/blk_drv/blk.h:44-47 | IN_ORDER is the strict order of one number per request. |
| Elevator.InsertKeepsSweeps | kernel/blk_drv/ll_rw_blk.c:80-102 | add_request keeps a queue of at most two strictly rising sweeps, when no queued request has the new key, and never displaces the current request. |
| Elevator.InsertAdds | kernel/blk_drv/ll_rw_blk.c:80-102 | The queue after an insertion holds the old requests and the new one, once each. |
| Elevator.EqualKeysBreakSweeps | kernel/blk_drv/ll_rw_blk.c:94-98 | A concrete queue where two equal keys make a third sweep: one buffer per block is needed. |
| Elevator.RemoveKeepsSweeps | kernel/blk_drv/blk.h:115-132 | Taking the current request off keeps two sweeps. |
| Elevator.AddingDoesNotDelay | kernel/blk_drv/ll_rw_blk.c:80-102 | No insertion raises the distance of a waiting request. |
| Elevator.CompletionAdvances | kernel/blk_drv/blk.h:115-132 | Every completion lowers it. |
| Elevator.HistoryKeeps | kernel/blk_drv/ll_rw_blk.c:80-102 | Over every history of insertions and completions the queue is two rising sweeps of distinct requests. |
| Elevator.Served | kernel/blk_drv/ll_rw_blk.c:80-102 | No starvation: in every history with as many completions as a request is away, it has been the current request at some moment. |
| Elevator.WaitBounded | kernel/blk_drv/ll_rw_blk.c:80-102 | That distance is below a constant fixed in advance. |
| Requests.QueueDistinct | kernel/blk_drv/ll_rw_blk.c:80-163 | All queued requests of a device have different keys. |
| Requests.NewRank | kernel/blk_drv/ll_rw_blk.c:104-163 | A request about to be queued has a key no queued request of its device has. |
| Requests.EnqueueKeeps | kernel/blk_drv/ll_rw_blk.c:80-163 | Queueing keeps the table in order: occupied slots are the disjoint union of the chains, a buffer is locked exactly while pending or queued and queued once, writes are in the low 21 slots, each queue is two sweeps; the one queue that changes is the old one with the request inserted by the elevator. |
| Requests.DequeueKeeps | kernel/blk_drv/blk.h:115-132 | So does end_request; the one queue that changes loses its first request. |
| Requests.BufferChange | kernel/blk_drv/ll_rw_blk.c:46-73 | Locking and unlocking a buffer that is not queued changes no queue and keeps the table in order. |
| Requests.CacheKeeps | fs/buffer.c:223-294 | Whatever the cache does keeps the table and the queues, as long as it leaves locked buffers their lock and their block and has one buffer for each block. |
| Requests.WritesBounded | kernel/blk_drv/ll_rw_blk.c:127-142 | At most 21 writes are queued at any time. |
| Requests.QueueOrder | kernel/blk_drv/blk.h:44-47 | In the fields of neighbours of one sweep: reads come before writes, then lower devices, then lower sectors. |
| BlockDevice.Device.Init | kernel/blk_drv/ll_rw_blk.c:177-185 | All slots free, all queues empty, the table in order. |
| BlockDevice.Device.Begin | kernel/blk_drv/ll_rw_blk.c:104-125 | Which of sleeping, dropping a read-ahead, doing nothing and locking happens, for each state of the buffer; only the lock changes. For an unlocked buffer a read does nothing if and only if it is up to date, a write if and only if it is not dirty. |
| BlockDevice.Device.Fill | kernel/blk_drv/ll_rw_blk.c:126-163 | The highest free slot below the limit of the command (21 for writes) is queued by the elevator; with none a read-ahead is dropped and unlocked and anything else sleeps. The slot says read (0) exactly for a read or read-ahead, below 32, and write (1) below 21, with the buffer, its device and twice its block; a buffer to be written is clean from then on. |
| BlockDevice.Device.FreeSlotBelow | kernel/blk_drv/ll_rw_blk.c:135-142 | The highest free slot below the limit, or none. |
| BlockDevice.Device.AddRequest | kernel/blk_drv/ll_rw_blk.c:80-102 | The pointers and the buffer after the call are those of the insertion on values. |
| BlockDevice.Device.Scan | kernel/blk_drv/ll_rw_blk.c:94-98 | The scan stops at the request that the insertion on values names. |
| BlockDevice.Device.EndRequest | kernel/blk_drv/blk.h:115-132 | The head of the queue is served, its buffer unlocked and marked, its slot free; unlock_buffer finds the buffer locked. |
| BlockDevice.QueuedSlot | kernel/blk_drv/ll_rw_blk.c:144-163 | The fields of the slot that a queued buffer gets. |
| BlockLayer.StepKeeps | kernel/blk_drv/ll_rw_blk.c:46-163 | Cache and request table work on one set of buffers, and every step of either keeps the invariants of both: one buffer per block for the elevator, locked buffers left alone for the queues. |
| BlockLayer.StepEvent | kernel/blk_drv/ll_rw_blk.c:80-163 | For each queue a step is one insertion of a key that is not queued, one completion, or nothing. |
| BlockLayer.SlotStays | kernel/blk_drv/blk.h:115-132 | A queued request keeps its slot and its contents until it is completed. |
| BlockLayer.RunKeeps | kernel/blk_drv/ll_rw_blk.c:46-163 | Both invariants hold over every run. |
| BlockLayer.RunIsHistory | kernel/blk_drv/ll_rw_blk.c:80-163 | Every run of callers, make_request and end_request is, for each device, one of the elevator's histories. |
| BlockLayer.Served | kernel/blk_drv/ll_rw_blk.c:80-102 | No starvation on the device: whatever is called and requested meanwhile, the request of a queued buffer, unchanged in its slot, has been the current one by the time its device has completed a number of requests that is fixed in advance. |
| BlockLayer.Reachable | fs/buffer.c:223-294 | From the empty cache and the empty table: in every reachable state one buffer per block, two sweeps of different keys in each queue, at most 21 writes. |
| BufferCache.HitNeverRetried | fs/buffer.c:200-213 | What find_buffer found is still that block after the sleep: the retry at line 211 is dead. |
| BufferCache.IdentityChange | fs/buffer.c:252-281 | A buffer changes its block in one way only: claimed by getblk while unused, unlocked and clean, for a block nobody has. |
| BufferCache.StepKeeps | fs/buffer.c:200-294 | Every step of any number of callers keeps: at most one buffer per block, b_count is the number of callers that hold or await the buffer, and those find their block in it. |
| BufferCache.RunKeeps | fs/buffer.c:200-294 | So does every run. |
| BufferCache.SameBlockSameBuffer | fs/buffer.c:223-284 | In every reachable state two callers holding the same block hold the same buffer. |
| BufferCache.HeldStays | fs/buffer.c:223-294 | From the return of getblk to the brelse the buffer stays that block, whatever others do. |
| BufferCache.InFlightStays | fs/buffer.c:238-252 | A buffer keeps its block while a transfer runs, though nobody may be using it. |
| BufferCache.PickOutcome | fs/buffer.c:252-281 | After the wait getblk starts over if its pick is in use or the block is cached, waits again if it is dirty, and otherwise holds it, counted once, clean, unlocked and not up to date. |
| BufferLinks.RingRemove | fs/buffer.c:157-163 | Unlinking from the circular list leaves a well-formed ring of the others in order. |
| BufferLinks.RingAppend | fs/buffer.c:168-172 | Linking in before the head leaves a well-formed ring with the new one last. |
| BufferLinks.ChainRemove | fs/buffer.c:150-156 | Unlinking from a doubly linked chain leaves a well-formed chain of the others in order. |
| BufferLinks.ChainInsert | fs/buffer.c:173-180 | Linking in at the head leaves a well-formed chain with the new one first. |
| BufferIndex.HashFn | fs/buffer.c:145-146 | The bucket of a device and a block is below NR_HASH. |
| BufferIndex.RemoveKeeps | fs/buffer.c:148-164 | After a removal the ring and the hash chains are those of the other buffers. |
| BufferIndex.InsertKeeps | fs/buffer.c:166-181 | After an insertion the ring has the buffer last, and it is in the chain of its identity and no other. |
| BufferIndex.BufferHeads.BufferInit | fs/buffer.c:381-414 | All buffers free of identity, in one ring in order, no hash chain. |
| BufferIndex.BufferHeads.RemoveFromQueues | fs/buffer.c:148-164 | The ring and chains are those of the other buffers; "Free block list corrupted" is not reached. |
| BufferIndex.BufferHeads.InsertIntoQueues | fs/buffer.c:166-181 | The buffer is last in the ring and first in its chain; the store of line 180 goes through a null pointer exactly when the bucket was empty, and then harms no list. |
| BufferIndex.BufferHeads.FindBuffer | fs/buffer.c:183-191 | A buffer is returned exactly when one has that identity. |
| BufferIndex.BufferHeads.PickUnused | fs/buffer.c:231-241 | The first, in ring order, of the unused buffers of least badness; none exactly when all are in use. In the bits: no unused buffer is clean where the pick is dirty, or alike in that and unlocked where the pick is locked. |
| BufferIndex.BufferHeads.Claim | fs/buffer.c:272-281 | The buffer has the new identity, is last in the ring, and all lists are in order again. |
| BufferIndex.BufferHeads.Look | fs/buffer.c:223-246 | From `repeat` to the next sleep the code makes the step of the transition system: found and counted, an unused buffer picked, or none. |
| BufferIndex.BufferHeads.Found | fs/buffer.c:207-213 | After the wait get_hash_table makes its step, with the branch for a buffer that has changed. |
| BufferIndex.BufferHeads.Settle | fs/buffer.c:252-284 | After the wait getblk makes its step: starts over, syncs, or claims the buffer, whose lists are then in order. |
| BufferIndex.BufferHeads.Brelse | fs/buffer.c:286-294 | brelse makes the step that ends a caller's hold. |
| Zones.PlaceOf | fs/inode.c:83-148 | Every logical block below 7+512+512*512 has a data slot in the inode's tree. |
| Zones.Layout | fs/inode.c:83-148 | On the disk: block l < 7 is zone[l]; the next 512 are 16-bit entries, low byte first, of the block zone[7]; the others are entry (l - 519) % 512 of the block that entry (l - 519) / 512 of zone[8] names; 0 where a link is missing. |
| Zones.ByteLayout | fs/file_dev.c:23-43 | Byte k of logical block l is byte k of the block it is mapped to, and 0 in a hole. |
| Zones.PlacesDiffer | fs/inode.c:83-148 | Different logical blocks have different slots. |
| Zones.IndexSet | fs/inode.c:107-111 | Storing one 16-bit entry of an index block changes that entry only. |
| Zones.GrowKeeps | fs/inode.c:86-147 | Hanging a new block into an empty slot keeps: block numbers lead to marked blocks of the data zone, no block is at two slots of any files, nothing is lost; the block appears at that slot and nowhere else. |
| Zones.GrowKeepsBytes | fs/bitmap.c:96-104 | It changes no byte of any file: the block is blank where the hole was. |
| Zones.WriteKeeps | fs/file_dev.c:69-82 | A write into a data block changes those bytes of that file and no block number anywhere. |
| Zones.TruncateKeeps | fs/truncate.c:47-64 | After a truncate no logical block of the file is mapped and all other files read as before. |
| Zones.TruncateConserves | fs/truncate.c:11-64 | No block is lost if and only if every index block with entries could be read and nobody else held any block of the file. |
| Zones.NextStillUsed | fs/bitmap.c:64-70 | While a truncate runs, the next block to free is still marked: "bit already cleared" cannot happen. |
| FileSystem.NewBlockTakes | fs/bitmap.c:75-105 | On a bitmap in order new_block takes the lowest free block, marked and zeroed, or finds every block taken, or panics, exactly when somebody holds the buffer of that block; never when only taken blocks are held. |
| FileSystem.Device.FindFirstZero | fs/bitmap.c:31-45 | The first clear bit of one bitmap block. |
| FileSystem.Device.NewBlock | fs/bitmap.c:75-105 | The first clear bit is set even when it is past s_nzones or the buffer is in use; the block number, the zeroed block and the panic follow from it. |
| FileSystem.Device.FreeBlock | fs/bitmap.c:47-73 | One bit is cleared, or none: both panics and the block somebody holds are told apart exactly. |
| FileSystem.Device.Map | fs/inode.c:76-149 | With create only logical block l of that file may appear, everything else and every byte stay, and what could be read still can; the number returned is what a later lookup gives; 0 means an unreadable index, a hole, or a full device; the panic of new_block needs a free block that is held. Without create the result is spelled out on zones and index bytes. |
| FileSystem.LookUp | fs/inode.c:83-148 | What a lookup returns, in zones and index bytes: the number stored for the block, 0 behind a missing or unreadable index. |
| FileSystem.Device.MapSingle | fs/inode.c:97-115 | The single indirect part. |
| FileSystem.Device.MapDouble | fs/inode.c:119-148 | The double indirect part. |
| FileSystem.Device.EntryOf | fs/inode.c:105-114 | One indirection, with its unreadable block, its hole and its full device. |
| FileSystem.Device.FreeInd | fs/truncate.c:11-27 | The blocks named by the index block, and it, are freed; an unreadable one is freed alone. |
| FileSystem.Device.FreeDind | fs/truncate.c:29-45 | The same one level up. |
| FileSystem.Device.Truncate | fs/truncate.c:47-64 | For a regular file or directory exactly the blocks that can be reached and that nobody holds are freed, once each, and the inode is empty; device special files, whose first zone is a device number, and all others are left alone. |
| FileSystem.Device.FileRead | fs/file_dev.c:17-46 | The bytes returned are the file's, zero in holes; a shorter read ends exactly at a block that cannot be read. |
| FileSystem.Device.ReadChunk | fs/file_dev.c:23-43 | One block's part of a read. |
| FileSystem.Device.FileWrite | fs/file_dev.c:48-90 | The file is overlaid with exactly the prefix that is returned, at the position or at the end; the size grows as needed; every byte written can be read, and so can all that could before; a shorter write has one of three causes, and the panic of new_block needs a free block that is held. |
| FileSystem.Device.WriteChunk | fs/file_dev.c:64-82 | One block's part of a write. |
| FileLaws.WriteOverlays | fs/file_dev.c:48-90 | A write is an overlay on the file's byte sequence, gaps filled with zeros; other files keep theirs. |
| FileLaws.TruncateEmpties | fs/truncate.c:47-64 | A truncate leaves the empty sequence; other files keep theirs. |
| FileLaws.RunMeans | fs/file_dev.c:48-90 | After any run of writes, appends and truncates all files hold exactly the bytes the same calls leave in plain byte sequences. |
| FileLaws.ReadSlice | fs/file_dev.c:17-46 | Reading below the end, where blocks and index can be read, gives all that was asked for, a slice of those bytes. |
| FileLaws.ReadBack | fs/file_dev.c:17-90 | Reading as many bytes as a write returned, from where it began, gives back exactly the bytes written, all of them. |
| FileLaws.NewThenFree | fs/bitmap.c:47-105 | Freeing what new_block handed out restores the bitmap: the two numberings are inverse. |
| FileLaws.FreeThenNew | fs/bitmap.c:47-105 | After a free, new_block hands out that block exactly when no lower one is free, and else a lower one. |
| WaitQueue.StepListed | kernel/sched.c:155-199 | Each step keeps head pointers and saved tmp variables in line with explicit lists: one per queue, and one behind each woken task that has not run yet. |
| WaitQueue.BlockedNamedOnce | kernel/sched.c:155-199 | A task sleeps uninterruptibly exactly when one head or one saved tmp names it, and then exactly one does. |
| WaitQueue.NobodyLost | kernel/sched.c:155-199 | So in every state reachable from a quiet kernel. |
| WaitQueue.WakesRightOne | kernel/sched.c:155-199 | Whoever a step makes runnable was asleep in sleep_on, on the very queue the step is about. |
| WaitQueue.Cascade | kernel/sched.c:167-168 | After a wake-up the rest of the chain stays in order behind the one woken last, through every run. |
| WaitQueue.WakeUpReachesAll | kernel/sched.c:193-199 | wake_up reaches everybody who slept on the queue: at any later time some have been made runnable, in order; while others are left, the last one woken is still runnable and its next run wakes the next. |
| WaitQueue.Tasks.SleepOn | kernel/sched.c:155-166 | The first half of sleep_on pushes the caller on the queue's list; task 0 panics. |
| WaitQueue.Tasks.AfterSchedule | kernel/sched.c:166-169 | The second half leaves the list and wakes the next. |
| WaitQueue.Tasks.WakeUp | kernel/sched.c:193-199 | wake_up detaches the list and wakes its first. |
| Scheduler.ScanBest | kernel/sched.c:129-138 | The scan finds the ready task with the largest counter, the highest slot among equals, and none exactly when none is ready. |
| Scheduler.SchedulePicks | kernel/sched.c:106-146 | Counters are recharged exactly when some task is ready and all ready tasks have none left; the task switched to has the most, and more than none; task 0 runs only when no other task is ready. |
| Scheduler.RechargedPicks | kernel/sched.c:140-143 | After a recharge some ready task has time left: no third round. |
| Scheduler.StepSound | kernel/sched.c:106-388 | Counters stay non-negative and priorities positive through ticks, schedule, fork and sys_nice. |
| Scheduler.StepBounded | kernel/sched.c:140-143 | While no priority is above max, counters stay below twice max. |
| Scheduler.StepLeft | kernel/sched.c:106-146 | While a ready task waits, time is given out only if it had none and then it gets some; otherwise each user tick uses up some of what is left and only a fork adds any. |
| Scheduler.NoStarvation | kernel/sched.c:128-146 | A ready task waits at most a fixed number of user ticks, and at most max more for each fork meanwhile; with time left, at most the time of the others and one tick, and the same for forks. |
| Scheduler.Kernel.Schedule | kernel/sched.c:106-146 | The in-place routine does the step, in at most two rounds. Task by task, slot 0 apart: SIGALRM joins the signals and the alarm is cleared if and only if it had passed; an interruptible task is running afterwards if and only if a signal of it is not blocked, or is 9 or 19; counters become half of what they were plus the priority, or stay. |
| Scheduler.Kernel.CheckSignals | kernel/sched.c:113-124 | The first loop: who is signalled and who is woken, told in signals, masks and alarms. |
| Scheduler.Kernel.Select | kernel/sched.c:129-138 | The selection loop computes the scan. |
| Scheduler.Kernel.DoTimer | kernel/sched.c:337-340 | A tick charges the running task and reschedules only in user mode when its time is used up; the time that is left is one less and not below 0. |
| Scheduler.Kernel.Nice | kernel/sched.c:383-388 | The priority falls by the increment unless it would not stay positive. |
| Scheduler.SignalledMeans | kernel/sched.c:113-124 | What the first loop of schedule does to a task, in its fields. |
| Scheduler.ScheduledMeans | kernel/sched.c:106-146 | What a whole step of schedule does to every task: signals and modes as above, and a counter that is kept, or halved and raised by the priority when all ready tasks had none. |
| Timers.InsertedAt | kernel/sched.c:292-305 | The new timer goes behind all that are due earlier, with what is left of its delay. |
| Timers.DueInserted | kernel/sched.c:292-305 | It is due exactly when asked for, those before it when they were, and all behind it later by what was left. |
| Timers.OthersOnTime | kernel/sched.c:296-305 | The other timers keep their times if and only if all of them are due before the new one; each one that is not is late. |
| Timers.OlderTimerLate | kernel/sched.c:296-305 | A timer due in 5 ticks is due in 8 after one for 3 ticks has been added. |
| Timers.TickedDue | kernel/sched.c:324-334 | A tick runs exactly the timers due at it; the others are one tick nearer. |
| Timers.NeverEarly | kernel/sched.c:277-334 | Whatever is added meanwhile, followed through every insertion and tick the new timer still waits, with at least the ticks that are left, after fewer ticks than asked for. |
| Timers.RunsOnTime | kernel/sched.c:324-334 | With nothing added meanwhile it has run by the tick asked for. |
| TimerList.TimerTable.AddTimer | kernel/sched.c:277-308 | The linked slots after the call spell the list with the timer inserted; no function, a delay that is over and a full table are told apart. |
| TimerList.TimerTable.Sink | kernel/sched.c:296-305 | The loop that exchanges the contents of neighbouring slots does that insertion. |
| TimerList.TimerTable.DoTimer | kernel/sched.c:324-334 | The timers due are taken off and run in order, and their slots are free. |
| Pipe.StepKeeps | fs/pipe.c:13-69 | Each run of a process up to its sleep keeps: at most 4095 bytes in the ring, a sleeping reader means an empty pipe, a sleeping writer a full one, and at most one process sleeps. |
| Pipe.Fifo | fs/pipe.c:13-69 | For every interleaving of any number of readers and writers: what all reads together have taken, followed by the ring, is what was in the ring followed by what all writes have put in; the capacity and the sleepers stay right. |
| Pipe.CallsServed | fs/pipe.c:13-69 | With both ends open, what a process hands to its write calls goes in byte for byte and once, however often it sleeps, and a reader gets as many bytes as it asked for. |
| Pipe.RingPut | fs/pipe.c:54-65 | Bytes stored at the head go to the end of the ring's contents and overwrite none of them. |
| Pipe.RingTaken | fs/pipe.c:24-35 | Bytes taken at the tail come from the front. |
| Pipe.Inode.ReadPipe | fs/pipe.c:13-39 | The call takes the front of the ring, as much as there is and is wanted, and ends done, at a closed end, or asleep: the step of the transition system. A call that gets less than it asked for leaves the pipe empty. |
| Pipe.Inode.WritePipe | fs/pipe.c:41-69 | The call appends as much as fits, with the same three ends: the step of the transition system. A call that cannot store everything leaves 4095 bytes in the pipe. |
| Malloc.LiveDisjoint | lib/malloc.c:118-174 | Live objects of any sizes do not overlap. |
| Malloc.LiveCount | lib/malloc.c:169-171 | The number of live objects of a page is what its free chain leaves. |
| Malloc.SlotsListed | lib/malloc.c:161-165 | The slots of a page, in chain order, are all multiples of the size in it, once each. |
| Malloc.SetFreeOk | lib/malloc.c:118-232 | Taking and giving slots keeps pages apart and descriptors conserved. |
| Malloc.OpenedOk | lib/malloc.c:147-168 | So does opening a page. |
| Malloc.ClosedOk | lib/malloc.c:209-229 | So does closing one. |
| Malloc.RefilledOk | lib/malloc.c:97-116 | A page of descriptors adds 256 to those conserved. |
| Malloc.ClosedLive | lib/malloc.c:209-229 | Closing a page all of whose slots are free ends the life of no object. |
| Malloc.ObjectAligned | lib/malloc.c:161-165 | A live object is at a multiple of its size and inside one page. |
| Allocator.TookRep | lib/malloc.c:169-171 | Popping the free chain keeps pointers and lists in line. |
| Allocator.GaveRep | lib/malloc.c:206-208 | Pushing on it does, though the link is stored in the object itself. |
| Allocator.OpenedRep | lib/malloc.c:147-168 | So does linking in a new page. |
| Allocator.ClosedRep | lib/malloc.c:219-228 | So does unlinking a page from its chain and recycling its descriptor. |
| Allocator.ScribbleRep | lib/malloc.c:118-232 | Whatever the owner of a live object writes into it, the allocator's pointers, kept in free slots, are not touched. |
| Allocator.RefcntExact | lib/malloc.c:171-209 | refcnt is the number of live objects of the page, and never 0 between calls. |
| Allocator.Buckets.constructor | lib/malloc.c:77-92 | The empty heap: no page, no descriptor, no live object. |
| Allocator.Buckets.BucketFor | lib/malloc.c:128-135 | The smallest class that fits. |
| Allocator.Buckets.FindSpace | lib/malloc.c:140-142 | The first page of the chain with a free slot. |
| Allocator.Buckets.InitBucketDesc | lib/malloc.c:97-116 | The new descriptors are all on the free list. |
| Allocator.Buckets.LinkSlots | lib/malloc.c:161-165 | All slots of a new page are chained, and no word outside it is written. |
| Allocator.Buckets.Malloc | lib/malloc.c:118-174 | The object is new, fits the smallest class that holds len, and is the only change to what is live; no word inside a live object changes; too large and out of memory are told apart. |
| Allocator.Buckets.FindPage | lib/malloc.c:192-202 | The search finds the page, and the descriptor before it, exactly when the page is malloc's and the hint is not above its class. |
| Allocator.Buckets.FreeS | lib/malloc.c:183-232 | The object and nothing else stops being live, its page goes back when it was the last, no other object's words change; every hint not above its class has the same effect; a larger one, and an address in none of malloc's pages, panics. |
| Allocator.Buckets.Release | lib/malloc.c:209-229 | The page leaves its chain; the second look for the predecessor is never needed. |
| ExecArgs.InFront | fs/exec.c:166-181 | A piece copied in front of the others joins them. |
| ExecArgs.ArgPages.Length | fs/exec.c:157-160 | The length with the terminating zero. |
| ExecArgs.ArgPages.CopyByte | fs/exec.c:167-180 | One byte in front, with the page it needs; page and offset always belong to p. |
| ExecArgs.ArgPages.CopyOne | fs/exec.c:166-181 | One string, from its end, across page boundaries. |
| ExecArgs.ArgPages.CopyStrings | fs/exec.c:135-186 | The strings end up in order below p, each with its zero, on pages that are there; the copy runs below the pages exactly when they do not fit, which the test of line 161 never sees. |
| NewStack.LongEncoded | fs/exec.c:80-92 | Four stored bytes read back as the number. |
| NewStack.RowString | fs/exec.c:83-91 | Each string of a row is where the lengths before it say. |
| NewStack.UserMemory.FillTable | fs/exec.c:83-92 | The table points to the strings in order and ends in NULL; nothing outside it is written. |
| NewStack.UserMemory.CreateTables | fs/exec.c:69-94 | argc, argv and envp lead to exactly the strings, both tables end in NULL, and the strings are above the tables. |
| Execve.MapPages | fs/exec.c:213-218 | Every argument page appears at its place below the end of the data segment. |
| Execve.DoExecve | fs/exec.c:307-387 | The new stack holds the strings pushed, or the call fails for lack of memory or because they fill the pages, or runs over them. |
| Execve.ExecutedRight | fs/exec.c:307-387 | The new program finds its arguments, for a script the interpreter's line before them, and its environment, unchanged and in order. |
| Execve.SplicedRight | fs/exec.c:307-330 | For a script the count, and with it argv and envp, is right if and only if there was an argv[0]. |
| Execve.NoArgumentsShift | fs/exec.c:307-309 | A script run without any argument: the file name becomes the first environment string. |
| Execve.ParseLine | fs/exec.c:281-302 | The interpreter is the first word of a line that ends in a newline, its argument the rest, and its argv[0] what follows the last slash. |
| Execve.CutWords | fs/exec.c:293-302 | The words are cut out of the buffer in place. |
| Execve.ArgumentsArrive | fs/exec.c:54-81 | Byte by byte: at the new stack pointer are argc, the address 12 above and that of envp; the tables hold addresses, low byte first, of strings that end in zero, and end in 0. The arguments are the caller's, or for a script the interpreter's name, its argument if any, the file name and the arguments after the first. |
| Execve.WhenTheyFit | fs/exec.c:127-178 | With memory left, the call succeeds if and only if the strings, each with its zero, take less than 131068 bytes. |
| Tty.CookMeans | kernel/chr_drv/tty_io.c:150-228 | The whole effect of a character in the order of the code, for every setting of the flags: what a carriage return, a newline and a capital letter stand for, and then kill, erase, stop, start, interrupt, quit, or one more character and one more line end. |
| Tty.CookCounts | kernel/chr_drv/tty_io.c:211-212 | secondary.data is the number of line ends that wait. |
| Tty.RunCounts | kernel/chr_drv/tty_io.c:146-290 | So in every run of input and reads. |
| Tty.CookKeepsLines | kernel/chr_drv/tty_io.c:163-191 | No character, erase and kill included, changes a finished line. |
| Tty.FoldKeepsLines | kernel/chr_drv/tty_io.c:146-229 | So for any input. |
| Tty.EraseUndoes | kernel/chr_drv/tty_io.c:178-191 | erase takes back the character before it. |
| Tty.KillUndoes | kernel/chr_drv/tty_io.c:163-177 | kill takes back the unfinished line and nothing else. |
| Tty.CookDrop | kernel/chr_drv/tty_io.c:146-290 | Reading what nothing can take back any more and editing the rest do not disturb each other. |
| Tty.RunIsFold | kernel/chr_drv/tty_io.c:146-290 | In every interleaving, what readers got followed by what waits is and stays the edited input, whatever is typed next, if and only if no reader ever takes a character that can still be taken back: one behind the last line end while erase or kill can be typed. |
| Tty.ReadHarmless | kernel/chr_drv/tty_io.c:146-290 | For one read in any state: whatever is typed afterwards has the effect it would have had before the read, if and only if what is read can no longer be taken back. |
| Tty.UnsettledShows | kernel/chr_drv/tty_io.c:262-273 | After a reader has taken such a character, enough of kill or erase leaves an edited input that is shorter than what he got. |
| TtyQueues.RingGet | include/linux/tty.h:31-32 | GETCH takes the first character of the ring. |
| TtyQueues.RingPut | include/linux/tty.h:33-34 | PUTCH on a ring that is not full appends one. |
| TtyQueues.RingBack | include/linux/tty.h:25-28 | DEC of the head drops the last, which LAST reads. |
| TtyQueues.TtyStruct.CopyToCooked | kernel/chr_drv/tty_io.c:146-229 | A prefix of the incoming characters is edited into the queue, all of it unless the queue is full; the ring is never overrun. |
| TtyQueues.TtyStruct.CookNext | kernel/chr_drv/tty_io.c:150-226 | One character does the edit it asks for. |
| TtyQueues.TtyStruct.KillLine | kernel/chr_drv/tty_io.c:165-175 | The loop drops back to the last line end. |
| TtyQueues.TtyStruct.Ready | kernel/chr_drv/tty_io.c:257-261 | A canonical reader goes on exactly when a finished line waits or fewer than 21 places are left. |
| TtyQueues.TtyStruct.TakeChars | kernel/chr_drv/tty_io.c:262-273 | The reader gets the first characters, up to nr, the end of the queue or an end-of-file mark, which is taken and not delivered. |
| TtyQueues.DeliveredSettled | kernel/chr_drv/tty_io.c:262-273 | A read is harmless if and only if nothing can be edited, an end-of-file mark is in reach, nr is within the finished lines, or the queue is empty or ends in a line end; the loop does not stop at a newline. |
| TtyQueues.TypedAheadIsRead | kernel/chr_drv/tty_io.c:262-273 | A concrete queue with one finished line and one character behind it: a read of ten takes that too, and killing it then comes too late. |
| Terminal.Step | kernel/chr_drv/console.c:445-605 | For every character the cursor stays at or one behind the last column, in a line of the screen, and the scroll region stays a region. |
| Terminal.Written | kernel/chr_drv/console.c:445-605 | So for every stream. |
| Terminal.SaveWorks | kernel/chr_drv/console.c:505-506 | ESC 7 saves the cursor if and only if it is in column 55 or saved there already: the column is compared where the character is meant. |
| Terminal.RestoreWorks | kernel/chr_drv/console.c:507-508 | ESC 8 restores it if and only if it is in column 56 or there already. |
| Terminal.ControlSaves | kernel/chr_drv/console.c:594-599 | ESC [ s and ESC [ u do so for every cursor, across any output that does not save it again. |
| Terminal.SaveFails | kernel/chr_drv/console.c:505-506 | On 80 columns, ESC 7 in column 10 changes nothing. |
| TerminalLaws.ControlWritten | kernel/chr_drv/console.c:510-527 | ESC [, up to 16 numbers typed in decimal with semicolons between them, and a letter: the letter finds each number modulo 2^32, 0 for those missing, and the parser is back at its start. |
| TerminalLaws.CursorMoves | kernel/chr_drv/console.c:528-564 | A, B, e, C, a, D, E, F, G, `, d, H and f from the typed numbers: the new column and row, or none when they are off the screen; nothing else changes. |
| TerminalLaws.Erases | kernel/chr_drv/console.c:239-297 | J and K: exactly which cells are blank afterwards for 0, 1, 2 and every other number. |
| TerminalLaws.LinesMove | kernel/chr_drv/console.c:401-429 | L and M: where every cell of the screen comes from, for any number of rows. |
| TerminalLaws.CellsMove | kernel/chr_drv/console.c:391-419 | @ and P: where every cell comes from, for any number of cells. |
| TerminalLaws.AttributeIs | kernel/chr_drv/console.c:299-310 | m: the attribute for 0, 1, 4, 7 and 27, the last known number of up to 16 deciding; other numbers change nothing. |
| TerminalLaws.RegionSet | kernel/chr_drv/console.c:586-594 | r: the scroll region, and when it is left alone. |
| TerminalLaws.CharacterWritten | kernel/chr_drv/console.c:454-495 | A printable character, line feeds, carriage return, erase, backspace, tab, ESC and everything else, cell by cell; a scroll moves every row of the region by one. |
| TerminalLaws.CharacterWraps | kernel/chr_drv/console.c:456-460 | Behind the last column a printable character does what a carriage return, a line feed and the character do. |
| TerminalLaws.FeedsWritten | kernel/chr_drv/console.c:496-502 | ESC E, ESC D and ESC M. |
| Console.UpMade | kernel/chr_drv/console.c:141-166 | The copying scroll moves exactly the rows of the region. |
| Console.MovedBack | kernel/chr_drv/console.c:115-129 | When video memory runs out the window goes back to its start and shows the scrolled screen. |
| Console.MovedOn | kernel/chr_drv/console.c:130-137 | Otherwise the moved window shows it. |
| Console.DownMade | kernel/chr_drv/console.c:170-202 | The scroll down moves exactly the rows of the region. |
| Console.Video.constructor | kernel/chr_drv/console.c:669-678 | The screen is the first window of video memory. |
| Console.Video.ScrUp | kernel/chr_drv/console.c:107-168 | Both kinds of adapter show the same screen afterwards, and pos is where the cursor is. |
| Console.Video.MoveOrigin | kernel/chr_drv/console.c:111-139 | The EGA's way does, inside video memory. |
| Console.Video.ScrDown | kernel/chr_drv/console.c:170-202 | The screen scrolled down. |
| Console.Video.Lf | kernel/chr_drv/console.c:204-212 | A line feed moves the cursor or scrolls the region. |
| Console.Video.Ri | kernel/chr_drv/console.c:214-222 | A reverse one likewise. |
| Console.Video.GotoXY | kernel/chr_drv/console.c:88-95 | Positions off the screen, also negative ones, are ignored. |
| Console.Video.PutChar | kernel/chr_drv/console.c:455-466 | The character is stored at the cursor, after a wrap if that was behind the line. |
| Console.Video.InsertChar | kernel/chr_drv/console.c:336-348 | The rest of the line moves right by one. |
| Console.Video.DeleteChar | kernel/chr_drv/console.c:363-376 | The rest of the line moves left by one. |
| Console.Video.CsiM | kernel/chr_drv/console.c:378-429 | Deleting lines at the top of an EGA screen moves the window and shows the same. |
| Console.Video.WriteControl | kernel/chr_drv/console.c:525-601 | Each control sequence does to the screen what it does to the plain grid; what that is, `TerminalLaws` says. |
| Console.Video.WriteChar | kernel/chr_drv/console.c:453-602 | So does each character, in each state of the parser. |
| Console.Video.ConWrite | kernel/chr_drv/console.c:445-605 | After any stream the window shows what a plain terminal without video memory shows, whatever the adapter, and no store was outside video memory. |

## Left out

- Task 0 writing to its own pages: the state machine has stores of tasks 1 to 63 only; the low memory that task 0 shares with its first child is not counted by the kernel either.
- `oom`, which ends the task: the methods return a failure with the state it leaves.
- Sleeping inside a page fault (`bread_page`): reading the executable is one step, the page it finds is a parameter.
- MemoryManager.Memory.PutPage: leaves out the two messages about pages that are not held, because every caller holds its page.
- TLB flushes, segment registers, task switching, port output: their effect on the modelled state is nil or is a parameter.
- `find_empty_process`, pids, file counts and the task structure itself: only its frame is modelled.
- `sync_dev`, `bread`, `breada`, `invalidate_buffers`: they combine steps that are modelled (getblk, ll_rw_block, waiting) and add no state of their own; sync_dev is the repeat of a caller that has picked a dirty buffer.
- BufferCache.StepKeeps: does not bound `b_count`, a byte in the source, because the number of callers is not bounded either.
- The panics of `brelse` on an unused buffer are excluded by the rule that a caller releases what it holds.
- BlockDevice.Device.EndRequest: leaves out requests without a buffer, which make_request never makes, and the two wake_ups, because a step that may go on is enabled in the model without being woken.
- BufferIndex.BufferHeads.RemoveFromQueues: asks for at least two buffers, because with a single one the list would become empty; `buffer_init` makes hundreds.
- The lost wake-up between the search for a request slot and the sleep (`kernel/blk_drv/ll_rw_blk.c:131-134`): search and sleep are one step.
- Blocks past 2^31 on a device, where twice the block number no longer fits the sector field.
- Controllers, retries and interrupts of the disk drivers: a completion is one `end_request`.
- FileSystem.Device.FreeBlock: does not model that a buffer already in use twice keeps the extra count of `get_hash_table`, because no block is affected.
- Inode locking, times, directories, permissions, mounting, i-node bitmaps: file storage is modelled sequentially, per device.
- The clipping of a read to the file size in `sys_read`, and page faults inside user copies.
- `interruptible_sleep_on`: clearing the queue head can strand sleepers, so the result about sleep_on does not hold for it; no queue in the kernel mixes the two.
- Timer functions that add timers while they run, and the floppy motor timers.
- Interrupts between the search and the removal in `free_s`: the second look for the predecessor is for them.
- What the objects of `malloc` contain when they are handed out; `unsigned short` of refcnt, which holds 256 at most.
- Execve.MapPages: leaves out a put_page that fails for lack of a page-table frame, because the kernel ignores it and goes on.
- Execve.DoExecve: reports Ready in that case too, as the kernel does, without the page.
- The rest of do_execve: modes, headers, signal handlers, the entry point. A second interpreter line is not followed by the code, and is not here.
- Pipe.Fifo: leaves out the signal to a writer without readers, because signals are not part of this model.
- Echo, output processing, `tty_write`, and the alarms and minimum counts of tty_read.
- The answer of the terminal to `ESC Z`, the bell, the hardware cursor, and the letters con_init writes into the first line; screens with an odd number of columns, where the copying loops lose a word, or fewer than 8.
