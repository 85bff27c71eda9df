# A verified model of the UoDOS kernel core

UoDOS is a small Unix-like teaching kernel with a FAT12 file system and a user library. This project
models its stateful core in Dafny and proves what that core is for: that memory is neither lost nor
handed out twice, that no wakeup is missed, that data comes back as it went in, and that command
lines mean what they say. Where the code falls short of that, the model keeps the code as it is,
exhibits an input, and proves exactly when the property holds.

Operations on values are functions; what the kernel updates in place is a class whose methods are
proved to compute those functions; protocols are transition systems whose theorems hold in every
state of every run.

| file | what it models |
|---|---|
| `Heap.dfy` | the K&R circular free list behind `malloc` and `free` |
| `BufferCache.dfy`, `DiskLists.dfy` | the disk buffer cache with its IDE queue: the protocol, and the linked lists it runs on |
| `SleepLock.dfy` | sleeping locks over `sleep`, `wakeup` and the scheduler |
| `Spinlock.dfy` | spinlocks, interrupt nesting and the passage through `sched` |
| `ProcessTable.dfy` | fork, exec, exit, wait, kill and scheduling |
| `PageTables.dfy` | physical frames and two-level page tables: each frame has one role |
| `AddressSpaces.dfy` | growing, shrinking, destroying and building address spaces |
| `SpaceCopies.dfy` | the kernel half of a directory, and the copy that `fork` makes |
| `ExecStack.dfy` | the argument block that `exec` lays out on a new stack |
| `MemoryRuns.dfy` | whole runs of the memory system: every frame accounted for, every address space apart |
| `ProgramLoads.dfy` | the memory of a program that `exec` is loading |
| `KernelMemory.dfy` | the memory functions as loops over the machine's state, up to the loading of a program |
| `Counters.dfy` | rings addressed by 32-bit counters that wrap |
| `Pipes.dfy`, `Console.dfy` | pipes, and console line editing |
| `ShellGrammar.dfy`, `ShellText.dfy`, `ShellPrinter.dfy`, `ShellReader.dfy` | the shell's parser: grammar, characters, printing, and the procedures |
| `Fat12.dfy` | the cluster table and reading along a chain |
| `Basics.dfy` | what several modules share |

`dafny verify dfyconfig.toml` checks everything.

## Where the code falls short

- `malloc` returns a payload shorter than asked exactly for requests within eight bytes of 2^32, and between 2^31 - 16 bytes and those it asks the kernel for nothing at all, or to shrink the process (`Heap.ShortPayloads`, `Heap.AskedRequests`).
- The disk controller sees one bit of the device number and 28 bits of the sector number, so the cache refines a map exactly on sets of keys that stay apart there (`BufferCache.MapExactlyWhenSeparate`).
- `sched` saves the interrupt flag for processes but not for the scheduler: a section of the scheduler in which a process handed over ends with that process's flag, and only a section without a hand-over surely ends with its own (`Spinlock.SchedulerFlag`, `Spinlock.SchedulerUndisturbed`, `Spinlock.SchedulerLosesFlag`).
- A `fork` that fails leaves its pid in the free slot, where `kill` can still find it: the next process in the slot is then born killed. A process is killed only if `kill` names it while it lives exactly when the slot was unmarked at its birth (`ProcessTable.KilledAlive`, `ProcessTable.BornKilled`).
- An `exec` that finds a section header cut short returns without giving back the address space it has built: that happens exactly when the header is reached, with everything before it placed (`KernelMemory.Kernel.LoadProgram`, `ProgramLoads.OneHeader`). What is lost over a run is exactly what such calls have dropped (`ProcessTable.LostExactly`, `ProcessTable.TableLost`).
- A `fork` that runs out of memory just when a new page table is needed loses one frame (`SpaceCopies.CopyLoses`). A run of memory operations keeps every frame within reach if and only if it has no such `fork` and no such `exec` (`MemoryRuns.NothingLost`).
- Shrinking a process to nothing releases its pages but leaves its size as it was (`SpaceCopies.ResizeExactly`); a `fork` of it then finds its first page missing (`SpaceCopies.EmptiedSpace`), which is a panic unless memory runs out first (`KernelMemory.Kernel.Copy`).
- A killed writer that finds the pipe full leaves without waking readers (`Pipes.QuietExactly`, `Pipes.ReaderStranded`).
- `kill` does not take the pipe's lock: a process killed after it has found itself not killed and before it sleeps is asleep in the pipe all the same, until some other wakeup; no other killed process is (`Pipes.KilledAsleep`, `Pipes.SleepsThroughKill`).
- A character that fills the console's buffer cannot be erased: it hands the line over (`Console.EraseUndoes`, `Console.FullOrFilled`).
- A file read that starts inside a sector and crosses its end reads past the buffer (`Fat12.ReadRightExactly`, `Fat12.FileReadExactly`); and the table in memory ends at cluster 3412 (`Fat12.TableBound`).
- A file read stops at the end of the cluster that holds the file's last byte, not at the last byte: which reads stay within the file is `Fat12.FileReadWithin`, and a one-byte file that gives 512 is `Fat12.PastTheEnd`. At or past its end, a file not yet marked so still gives the rest of a cluster (`Fat12.FileReadPast`).
- A file read past the end of the file's chain, or of an empty file, which has no chain, gives bytes from two clusters before the data (`Fat12.ReadOffTheChain`, `Fat12.ReadEmptyFile`).
- `exec` copies an argument through a null page-table pointer exactly when the argument is longer than all memory below the stack pointer and wraps to where there is no page table (`ExecStack.StackExactly`, `ExecStack.WildArgument`, `ExecStack.WildLength`).

## Model

| member | source | states |
|---|---|---|
| Heap.FreeCorrect | UoDOS/umalloc.c:24-45 | `free` of a live block keeps the heap well-formed: one circular, address-sorted list with one wrap, containing `base`, no two free blocks touching, free and live blocks partitioning the units from `sbrk`; and the in-place writes of the source are exactly what takes it there |
| Heap.FreedApart | UoDOS/umalloc.c:32-43 | after coalescing upward and downward, no free block touches its successor |
| Heap.FreedWellFormed | UoDOS/umalloc.c:24-45 | freeing any live block re-establishes the whole invariant |
| Heap.FreedFits | UoDOS/umalloc.c:57-60 | a freed block ends up inside a free block at least as long |
| Heap.GrowCorrect | UoDOS/umalloc.c:47-61 | growing the heap and freeing the new block leaves every live block alone and makes a request of that size fit |
| Heap.TakeCorrect | UoDOS/umalloc.c:75-76 | handing out a whole free block keeps the invariant and adds exactly that block to the live ones |
| Heap.CutCorrect | UoDOS/umalloc.c:77-81 | handing out the tail of a longer block keeps the invariant and adds exactly that tail |
| Heap.NothingFits | UoDOS/umalloc.c:73-88 | when the walk comes back to `freep` without a fit, no free block anywhere is long enough |
| Heap.HonestRequests | UoDOS/umalloc.c:54-68 | rounding and `nu * sizeof(Header)` stay in the positive int range exactly for requests up to 2^31 - 16 bytes |
| Heap.AskedRequests | UoDOS/umalloc.c:47-68 | `sbrk` is asked for the bytes that `morecore` takes exactly for those requests and the ones that wrap around to one unit; for all others it is asked for none or a negative number |
| Heap.ShortPayloads | UoDOS/umalloc.c:68 | the computed units hold fewer bytes than asked exactly when the rounding wraps past 2^32 |
| Heap.StoreCore | UoDOS/umalloc.c:9-19 | a program writing inside a live block cannot break the allocator |
| Heap.Conservation | UoDOS/umalloc.c:24-89 | free units and live units add up to the units obtained from `sbrk` |
| Heap.LiveApart | UoDOS/umalloc.c:63-89 | a live block overlaps no other block, live or free, and lies in memory obtained from `sbrk` |
| Heap.Allocator.Search | UoDOS/umalloc.c:29-31 | from wherever `freep` is, the loop ends at the one place in address order where the block belongs |
| Heap.PlaceTest | UoDOS/umalloc.c:29-31 | the two tests of the loop hold at the one member after which the block belongs in address order, and at no other |
| Heap.Allocator.Splice | UoDOS/umalloc.c:32-43 | the two merges write exactly the headers of the specification |
| Heap.Allocator.Free | UoDOS/umalloc.c:24-45 | `free` keeps the invariant and removes exactly the given block from the live ones |
| Heap.Allocator.MoreCore | UoDOS/umalloc.c:47-61 | null exactly when the kernel refuses; otherwise the units asked for, and never fewer than 4096, are free, a request fits, and no live block changes |
| Heap.CoreUnits | UoDOS/umalloc.c:52-53 | what `sbrk` is asked for: the larger of the units needed and 4096 |
| Heap.Allocator.Walk | UoDOS/umalloc.c:73-87 | the walk terminates, and finds a block exactly when one fits |
| Heap.Allocator.Carve | UoDOS/umalloc.c:74-83 | the result is a new live block of the size asked, and all others stay |
| Heap.Allocator.Malloc | UoDOS/umalloc.c:63-89 | for every 32-bit request: `malloc` terminates, grows at most once, gives a block overlapping no live one that holds the bytes asked exactly when the rounding does not wrap, and fails exactly when nothing fits and the kernel refuses; it is unsafe exactly when nothing fits and `sbrk` would be asked for nothing or to shrink the process |
| Heap.Allocator.Run | UoDOS/umalloc.c:24-89 | over every sequence of mallocs, frees and breaks, up to the first unsafe call if there is one, the invariant holds and no unit is lost |
| BufferCache.GetKeeps | UoDOS/bio.c:62-95 | handing out a buffer, cached or recycled from the tail, keeps the invariant: the list a permutation, reference counts equal to holders, waiters and releasers, one used buffer per key, a used (0,0) buffer before every never-used one |
| BufferCache.StepKeeps | UoDOS/bio.c:62-145 | every step of every process and of the disk keeps that invariant |
| BufferCache.StepAgrees | UoDOS/ide.c:124-200 | every step keeps valid clean buffers equal to the last data written, and every read returns it |
| BufferCache.CacheIsMap | UoDOS/bio.c:98-145 | in every interleaving, a read returns the data last written for that device and sector, or what the disk held at the start |
| BufferCache.NeverRelabelled | UoDOS/bio.c:69-93 | a buffer with a holder, a waiter or a releaser is never given to another sector |
| BufferCache.OneBufferPerKey | UoDOS/bio.c:39-95 | of the buffers handed out at any moments of a run up to now, at most one carries a given key, at most one process holds it, and the list is a permutation |
| BufferCache.StaysUsed | UoDOS/bio.c:62-145 | no step makes a buffer that was handed out count as never used |
| BufferCache.UsedEverAfter | UoDOS/bio.c:62-145 | nor does any run of steps |
| BufferCache.InRangeSeparate | UoDOS/ide.c:107-110 | devices 0 and 1 with 28-bit sector numbers are always told apart by the controller |
| BufferCache.SharedSector | UoDOS/ide.c:107-110 | two keys that the controller confuses: a run in which a read returns the other's data |
| BufferCache.MapExactlyWhenSeparate | UoDOS/bio.c:98-145 | all runs over a set of keys read as a map does if and only if the controller tells the keys apart |
| BufferCache.ToFrontPermutes | UoDOS/bio.c:132-144 | moving a buffer to the front keeps the list a permutation of all buffers |
| BufferCache.OrderStep | UoDOS/bio.c:132-144 | a step moves a buffer to the front exactly when it gives up the last reference to it, and leaves the list alone otherwise |
| BufferCache.Recency | UoDOS/bio.c:35-36 | in every run the list is in order of last use: a buffer given up later comes earlier, and those never given up come last |
| BufferCache.LeastRecent | UoDOS/bio.c:79-93 | a sector that is not cached gets the least recently used buffer: of all those free and clean, none was given up before it |
| DiskLists.Unlink | UoDOS/bio.c:137-138 | the two pointer writes take a buffer out of the doubly linked list and leave the rest in order |
| DiskLists.LinkFront | UoDOS/bio.c:139-142 | the four pointer writes put a buffer at the front, in both directions |
| DiskLists.DropThenFront | UoDOS/bio.c:134-143 | unlinking and linking at the front is the move to front of the cache protocol |
| DiskLists.Cache.constructor | UoDOS/bio.c:39-56 | the initial list holds all buffers, last first, all labelled (0,0) and unused |
| DiskLists.Cache.FindCached | UoDOS/bio.c:69-78 | walking forward finds the first buffer with the key, or there is none |
| DiskLists.Cache.FindRecyclable | UoDOS/bio.c:81-93 | walking backward finds the last buffer that is unreferenced and clean, or there is none |
| DiskLists.Cache.Get | UoDOS/bio.c:62-95 | what changes in the buffer array on a hit and on a miss, and nothing on "no buffers" |
| DiskLists.Cache.MoveToFront | UoDOS/bio.c:137-142 | the pointer writes make the list that the protocol says |
| DiskLists.Cache.Release | UoDOS/bio.c:124-145 | the count drops by one, and the buffer moves to the front exactly when it reaches zero |
| DiskLists.RequestQueue.Last | UoDOS/ide.c:183-184 | the walk ends at the last request |
| DiskLists.RequestQueue.Append | UoDOS/ide.c:181-191 | requests are queued first in, first out, and the disk is started exactly when the queue was empty |
| DiskLists.RequestQueue.Pop | UoDOS/ide.c:131-137 | the interrupt takes the oldest request off the queue |
| SleepLock.StepKeeps | UoDOS/proc.c:368-532 | every step of every process, the scheduler and `kill`, on any number of CPUs, keeps the invariant behind the next three |
| SleepLock.NoLostWakeup | UoDOS/proc.c:470-532 | in every run, a process asleep on a sleeping lock finds it held, or its releaser between clearing it and waking, with the inner spinlock in hand |
| SleepLock.MutualExclusion | UoDOS/sleeplock.c:21-40 | in every run, two processes never hold the same sleeping lock |
| SleepLock.HolderNamed | UoDOS/sleeplock.c:21-51 | in every run, a sleeping lock is locked exactly while one process has it, and `Pid` names that process and no other; a free lock names none |
| SleepLock.NoStaleChannel | UoDOS/proc.c:493-500 | in every run, only a process inside `sleep` names a channel |
| SleepLock.RunningOnOneCpu | UoDOS/proc.c:368-437 | in every run, a running process is on exactly one CPU |
| Spinlock.StepKeeps | UoDOS/spinlock.c:24-130 | every step around the atomic exchange, interrupts and context switches keeps the invariant behind the next five |
| Spinlock.MutualExclusion | UoDOS/spinlock.c:24-68 | at every moment at most one CPU holds a lock, and `isHolding` is true on no other |
| Spinlock.HoldingExact | UoDOS/spinlock.c:93-96 | `isHolding` is true exactly on the CPU that holds the lock, outside the two instants when the owner field is being written |
| Spinlock.DepthCounts | UoDOS/spinlock.c:103-130 | `CliDepth` is the number of held locks plus open `pushCli` calls, interrupts are off while it is positive, and so `popCli` cannot panic |
| Spinlock.EntryKept | UoDOS/proc.c:413-437 | the flag a thread entered with is remembered across every step, including switches |
| Spinlock.FlagComesBack | UoDOS/proc.c:413-437 | a process that leaves its outermost section, on whatever CPU and after any number of switches, has the interrupt flag it entered with |
| Spinlock.SchedulerInherits | UoDOS/proc.c:405-437 | the scheduler takes over the saved flag of the process that hands it the CPU |
| Spinlock.SchedulerFlag | UoDOS/proc.c:368-437 | for a section that the scheduler enters, dispatches processes in and leaves: it leaves with the flag that the process which last handed over had entered with, and so with the flag it had itself when it entered if and only if the two were equal |
| Spinlock.SchedulerEntry | UoDOS/spinlock.c:103-113 | whatever runs on the CPU in between, the flag recorded for the scheduler is the one it had when it entered |
| Spinlock.SchedulerTakesFlag | UoDOS/proc.c:368-437 | for a process that entered its section on any CPU, the scheduler leaves with the flag of that CPU at that moment |
| Spinlock.SchedulerUndisturbed | UoDOS/proc.c:368-407 | a section of the scheduler in which it dispatches nobody ends with the flag it began with |
| Spinlock.SchedulerLosesFlag | UoDOS/proc.c:368-437 | a run in which the scheduler enters with interrupts on and leaves with them off |
| ProcessTable.StepKeeps | UoDOS/proc.c:216-358 | every step of allocate, fork, exec, exit, wait, sleep, wakeup, kill, yield and schedule keeps the invariant behind the rows below |
| ProcessTable.ExecKeeps | UoDOS/exec.c:64-154 | so does each end of `exec`: the new page table replaces the old, or is cleaned up, or is abandoned |
| ProcessTable.NoMissedChild | UoDOS/proc.c:264-358 | in every run, a process asleep in `wait` has no zombie child |
| ProcessTable.ParentsAlive | UoDOS/proc.c:291-302 | in every run, no parent pointer refers to an unused or zombie slot |
| ProcessTable.OneCpuEach | UoDOS/proc.c:368-437 | in every run, a process is RUNNING exactly when it is on a CPU, and then on one only |
| ProcessTable.ReapedOnce | UoDOS/proc.c:313-358 | in every run, `wait` returns each pid at most once and never one still in the table |
| ProcessTable.NothingLeaks | UoDOS/proc.c:216-346 | in every run, each kernel stack and page table has exactly one owner, or was freed exactly once, or was abandoned by an `exec` that found a section header cut short |
| ProcessTable.LostExactly | UoDOS/exec.c:75-80 | in every run, an allocation is lost if and only if some earlier `exec` dropped it as its unfinished page table |
| ProcessTable.TableLost | UoDOS/exec.c:75-80 | a run in which a page table is lost: nobody owns it, and it has not been freed |
| ProcessTable.ExitEnabled | UoDOS/proc.c:264-305 | in every run, every process but the first has a parent, so `exit` is never held up |
| ProcessTable.KillFinds | UoDOS/proc.c:538-559 | `kill` of a pid finds the one slot that holds it, free slots included |
| ProcessTable.KilledStep | UoDOS/proc.c:538-559 | no step but a `kill` of its pid marks a process, and none unmarks it while it holds its slot |
| ProcessTable.KilledExactly | UoDOS/proc.c:538-559 | in every run, a process is marked killed if and only if its slot was marked before its birth or `kill` has named its pid since |
| ProcessTable.KilledAlive | UoDOS/proc.c:105-116 | a process is killed only if `kill` named it while it lived, if and only if its slot was unmarked when it was allocated |
| ProcessTable.UnmarkedSlot | UoDOS/proc.c:333-344 | a free slot that is new or was emptied by `wait` is unmarked |
| ProcessTable.BornKilled | UoDOS/proc.c:105-116 | a run in which a process becomes RUNNABLE killed although no `kill` ever named it |
| ProcessTable.ExitedSlot | UoDOS/proc.c:288-305 | what `exit` leaves in every slot: children pass to init, which is woken if one is a zombie; the parent is woken; nothing else changes |
| ProcessTable.PassedOnAll | UoDOS/proc.c:291-302 | the loop that hands children to init is one reparenting and at most one wakeup |
| ProcessTable.PassedOnStep | UoDOS/proc.c:291-302 | one turn of that loop, from any point of it |
| ProcessTable.Table.Allocate | UoDOS/proc.c:87-109 | the first unused slot becomes an embryo with the next pid, or nothing changes |
| ProcessTable.Table.Wakeup1 | UoDOS/proc.c:513-524 | exactly the sleepers on the channel become runnable |
| ProcessTable.Table.Exit | UoDOS/proc.c:288-305 | the loops of `exit` do what `ExitedSlot` describes |
| ProcessTable.Table.Reap | UoDOS/proc.c:322-346 | the first zombie child is taken out and its pid returned; otherwise the caller learns exactly whether it has children |
| ProcessTable.Table.Kill | UoDOS/proc.c:538-559 | the first slot with the pid, and no other, becomes `Killed` of it, or the call fails and nothing changes; what that is to every field is `KillWakes` |
| ProcessTable.KillWakes | UoDOS/proc.c:538-559 | field by field: the slot with the pid is marked, and runnable if it was asleep; every other field and every other slot is as it was |
| ProcessTable.WakeupClears | UoDOS/proc.c:513-532 | field by field: the sleepers on the channel, and only they, become runnable, so that none is left asleep on it; nothing else changes |
| ProcessTable.AsleepStep | UoDOS/proc.c:470-559 | a process is asleep after a step because it was, on the same channel, or because it has just called `sleep` or `wait` |
| ProcessTable.SleptLater | UoDOS/proc.c:470-559 | in every run, a process asleep now and not then has gone to sleep in between |
| ProcessTable.KilledAsleep | UoDOS/proc.c:538-559 | in every run, a process that `kill` has named and that is asleep has gone to sleep after the `kill` |
| ProcessTable.SleepsSince | UoDOS/proc.c:513-532 | in every run, a process asleep on a channel has gone to sleep after the last wakeup on it |
| ProcessTable.KilledNeverWaits | UoDOS/proc.c:313-358 | in every run, a process asleep in `wait` is not marked killed |
| ProcessTable.NoStaleChannel | UoDOS/proc.c:493-500 | in every run, only a sleeper, or one woken that has not run since, names a channel |
| PageTables.TableRole | UoDOS/vm.c:37-61 | a present directory entry leads to a frame that is that directory's table for that entry and nothing else |
| PageTables.PageRole | UoDOS/vm.c:37-61 | a mapped user page leads to a frame that belongs to that page of that directory and to no other |
| PageTables.RightsOfPage | UoDOS/vm.c:52-58 | the hardware asks both levels for their leave, but directory entries give it always: what a program may do to a page is what the page's own entry says |
| PageTables.PopInv | UoDOS/kalloc.c:90-108 | taking a frame keeps the free list duplicate-free, exactly the free frames, and linked through the frames themselves |
| PageTables.PushInv | UoDOS/kalloc.c:62-84 | giving a frame back keeps the same, and changes no address space |
| PageTables.LinkedKept | UoDOS/kalloc.c:62-108 | the links in free frames survive every write to frames that are not free |
| PageTables.AddTableInv | UoDOS/vm.c:49-58 | a new page table changes no mapping of any address space |
| PageTables.MapPageInv | UoDOS/vm.c:80-84 | mapping a page changes the walk for that page alone and keeps every frame in one role |
| PageTables.UnmapInv | UoDOS/vm.c:328-338 | unmapping a page frees its frame once and changes no other page of any address space |
| AddressSpaces.WalkedOk | UoDOS/vm.c:37-61 | finding or making a page table takes at most one frame, fails exactly when one is needed and there is none, and changes no mapping |
| AddressSpaces.RoundUpLeast | UoDOS/mmu.h:131 | rounding up gives the least number of pages that holds the bytes |
| AddressSpaces.ReleasedOk | UoDOS/vm.c:311-341 | releasing a range unmaps exactly its pages, frees exactly their frames, and keeps every other page with its bytes |
| AddressSpaces.CreatedOk | UoDOS/vm.c:67-93 | mapping one user page: when it succeeds, what frames it takes, and that nothing else changes |
| AddressSpaces.AllocatedOk | UoDOS/vm.c:271-304 | growing either maps every page to a zeroed frame that was free, or rolls the range back |
| AddressSpaces.GrowOrRestore | UoDOS/vm.c:271-304 | a failed growth gives back exactly the mapping there was, with at most page tables left over; a successful one adds zeroed pages; in both cases every page that was mapped keeps its bytes |
| AddressSpaces.KernelTablesKept | UoDOS/vm.c:271-304 | growing the user half makes no page table for the kernel half |
| AddressSpaces.ClearedOk | UoDOS/vm.c:369-379 | clearing the user bit closes one page, if it was mapped, and changes nothing else; it panics exactly where there is no page table |
| AddressSpaces.DestroyedOk | UoDOS/vm.c:346-364 | destroying an address space returns each frame it owns, and no other, exactly once, and leaves all other address spaces alone |
| AddressSpaces.FreeSize | UoDOS/kalloc.c:62-108 | the length of the free list is the number of free frames |
| AddressSpaces.KernelMappedOk | UoDOS/vm.c:67-93 | mapping a kernel range succeeds exactly when there are frames for the missing tables, and then maps consecutive frames |
| SpaceCopies.SetUpOk | UoDOS/vm.c:119-158 | a directory with its kernel half takes exactly 65 frames and maps every page as the kernel's map says, code and constants read-only and nothing open to programs; with fewer frames the call fails and every frame has the role it had |
| SpaceCopies.CopiedFromOk | UoDOS/vm.c:395-419 | from any page on, the copy ends as the number of free frames says, and each end leaves what it should |
| SpaceCopies.CopySucceeds | UoDOS/vm.c:384-420 | the copy succeeds if and only if there are 65 frames, one per page and one per 1024 pages; it then agrees with the parent on every byte and flag, has the same kernel half, uses frames that were free, and changes no existing address space |
| SpaceCopies.CopyLoses | UoDOS/vm.c:407-417 | a failed copy gives every frame back, except that exactly one is lost if and only if the free frames number 66 + 1025k for a table k that the copy reaches |
| SpaceCopies.FateOf | UoDOS/vm.c:395-417 | how a copy ends, from the count of frames alone |
| SpaceCopies.StoreStays | UoDOS/vm.c:384-420 | a store by a program changes one page of its own address space and nothing of any other |
| SpaceCopies.StoresNeverShow | UoDOS/vm.c:384-420 | over any run of stores by others, an address space keeps its mapping and all its bytes |
| SpaceCopies.ResizeExactly | UoDOS/proc.c:187-210 | `growProcess` never leaves pages above the size; it leaves exactly the pages of the process mapped if and only if all that remain were mapped before and it does not shrink to exactly nothing |
| SpaceCopies.GrowNeeds | UoDOS/vm.c:271-304 | growing succeeds if and only if there is a free frame for every new page and every page table that is missing, and then takes exactly those |
| SpaceCopies.ResizeGrows | UoDOS/proc.c:187-210 | `growProcess` upwards: it succeeds if and only if the new end lies below KERNBASE and there are those frames; then the size is the new one, the pages in between are mapped, writeable, open to the program and zeroed, and all others as they were; otherwise size and address space are as they were |
| SpaceCopies.ResizeShrinks | UoDOS/proc.c:187-210 | `growProcess` downwards: to a smaller size it succeeds and exactly the pages above go; to nothing it releases all pages, fails and keeps the size; by more than the size nothing happens, and it fails only at size 0 |
| SpaceCopies.ResizeNone | UoDOS/proc.c:187-210 | a change by nothing succeeds and changes nothing |
| SpaceCopies.ResizeFits | UoDOS/proc.c:187-210 | for a process that has exactly its pages, that comes to: unless it is shrunk to exactly nothing |
| SpaceCopies.EmptiedSpace | UoDOS/proc.c:199-206 | after a shrink to nothing the very first page below the recorded size is missing |
| ExecStack.CopyOutOk | UoDOS/vm.c:444-469 | a copy that is granted wrote exactly the data, in user memory, without wrapping, through pages all open to the program; in any case no mapping changes |
| ExecStack.WordUnique | UoDOS/exec.c:122-129 | four bytes read back as one 32-bit word |
| ExecStack.StringUnique | UoDOS/exec.c:114-115 | a place in memory holds at most one C string |
| ExecStack.StaysInStack | UoDOS/exec.c:103-120 | a granted copy below the stack pointer lies in the stack page: any overflow would touch the guard page or wrap |
| ExecStack.StackDecodes | UoDOS/exec.c:104-133 | if every copy is granted, memory at the final stack pointer decodes to the return address, the count, the argument vector and exactly the original strings; all of it lies in the stack page, and no other byte has changed; more than 32 arguments fail |
| ExecStack.NeverWild | UoDOS/vm.c:424-438 | no copy goes through a missing page table as long as no argument is longer than the memory below the stack |
| ExecStack.StackExactly | UoDOS/exec.c:104-133 | the block is laid out exactly when there are at most 32 arguments and they and the words fit in the stack page; a copy goes through a missing page table exactly when some argument, after others that fit, is longer than all memory below the stack pointer and wraps to where there is no table |
| ExecStack.WildArgument | UoDOS/vm.c:424-469 | with the usual kernel half, every first argument longer than all memory below the stack that wraps to an address between the direct map and the devices goes through a missing page table |
| ExecStack.WildLength | UoDOS/vm.c:424-469 | for every stack, one such length |
| MemoryRuns.NextOk | UoDOS/vm.c:271-420 | each of ten memory events keeps every frame in one role and every other address space as it was, and loses a frame exactly if it is a copy that runs out with a page in hand, and all frames of an address space exactly if it is an abandoned load |
| MemoryRuns.FramesAccounted | UoDOS/vm.c:271-420 | in every run of growths, shrinks, copies, destructions, stores, abandoned loads and kernel pages, no frame appears or disappears, none gone astray comes back, and as many go astray as those copies and loads account for |
| MemoryRuns.NothingLost | UoDOS/vm.c:271-420 | a run keeps every frame within reach if and only if it has no such copy and no such load |
| MemoryRuns.SpacesApart | UoDOS/vm.c:271-420 | over every such run, an address space that is not itself the subject keeps its mapping and all its bytes |
| MemoryRuns.FourKinds | UoDOS/kalloc.c:62-108 | free frames, kernel pages, frames of known address spaces and frames astray add up to all of memory |
| KernelMemory.SkipTable | UoDOS/vm.c:323-327 | jumping over a missing page table releases the same pages as going page by page |
| KernelMemory.Kernel.FreeFrame | UoDOS/kalloc.c:62-84 | the frame's first word leads to the old head, and the frame becomes the head: the list in the frames is the old list with the frame in front |
| KernelMemory.Kernel.AllocFrame | UoDOS/kalloc.c:90-108 | the head of the list in the frames, or null exactly when it is empty; the next frame becomes the head |
| KernelMemory.Kernel.FreeRange | UoDOS/kalloc.c:47-55 | exactly the whole frames between the addresses come under management, free, and the partition of frames is kept |
| KernelMemory.Kernel.Walk | UoDOS/vm.c:37-61 | computes `Walked`, and without `alloc` changes nothing |
| KernelMemory.Kernel.MapUser | UoDOS/vm.c:67-93 | computes `Created` |
| KernelMemory.Kernel.MapKernel | UoDOS/vm.c:67-93 | computes `KernelMapped` |
| KernelMemory.Kernel.Release | UoDOS/vm.c:311-341 | the loop with its jump over missing tables does what the page-by-page walk does, for any size up to KERNBASE |
| KernelMemory.Kernel.Allocate | UoDOS/vm.c:271-304 | the loop with its two ways out computes `Allocated`; sizes at or above KERNBASE and shrinking change nothing |
| KernelMemory.Kernel.Destroy | UoDOS/vm.c:346-364 | computes `Destroyed` |
| KernelMemory.Kernel.SetUpKernel | UoDOS/vm.c:135-158 | computes `SetUp`, over the four lines of the kernel's map |
| KernelMemory.Kernel.Copy | UoDOS/vm.c:384-420 | for any parent: computes `Copied` up to the first page that the parent does not map, with the lost frame where the source loses it, and panics there exactly when all before it could be copied |
| KernelMemory.Kernel.ClearUser | UoDOS/vm.c:369-379 | computes `Cleared`, false where the source panics |
| KernelMemory.Kernel.CopyToUser | UoDOS/vm.c:444-469 | computes `CopyOut` |
| KernelMemory.Kernel.GrowProcess | UoDOS/proc.c:187-210 | for every process without pages above its size, also after a shrink to nothing: computes `Resized`, with sizes on 32 bits; what that comes to, up, down and by nothing, are the three `Resize` laws of `SpaceCopies` |
| KernelMemory.Kernel.MakeStack | UoDOS/exec.c:95-104 | two pages above the program, the lower closed to it and the upper open, with a page table for everything below, exactly when they lie below KERNBASE and there are frames for them; in any case only free frames have changed hands, for this directory, and no other address space changes |
| KernelMemory.Kernel.PushArguments | UoDOS/exec.c:104-133 | the loop over the arguments computes `StackBuilt` |
| KernelMemory.Kernel.PushWords | UoDOS/exec.c:122-133 | the array of words below the strings is copied out as `Words` |
| ProgramLoads.BuiltLoading | UoDOS/vm.c:119-158 | the kernel half that `setupKernelVirtualMemory` builds is closed to programs and has no table between the direct map and the devices |
| ProgramLoads.GrowLoading | UoDOS/exec.c:82-86 | a section that fits leaves a larger program with the same kernel half |
| ProgramLoads.GrowCount | UoDOS/vm.c:271-304 | growing from any page on succeeds if and only if there is a frame for every page and one for every 1024 pages, counted from the start of the program |
| ProgramLoads.PlacedStep | UoDOS/exec.c:82-86 | a section finds room exactly by that count, and leaves the count right for the next |
| ProgramLoads.PlaceableExactly | UoDOS/exec.c:71-92 | all sections can be placed one after another if and only if each is whole, readable and below KERNBASE, the first is not empty, and there are 65 frames and those for the largest end |
| ProgramLoads.CutOnce | UoDOS/exec.c:75-80 | at most one header cut short can be reached |
| ProgramLoads.OneHeader | UoDOS/exec.c:75-80 | a program whose only header is cut short, with memory for a directory: all 65 of its frames are left behind |
| KernelMemory.Kernel.AddSection | UoDOS/exec.c:82-86 | a section is added exactly when it lies below KERNBASE, the program is not empty with it and there are frames for it; in any case nothing is lost in trying |
| KernelMemory.Kernel.CleanUp | UoDOS/exec.c:15-22 | all that was built for the directory goes back: every frame has the role it had, and every address space is as it was |
| KernelMemory.Kernel.LoadProgram | UoDOS/exec.c:64-133 | from `setupKernelVirtualMemory` on. The program is ready if and only if there are frames for the directory, the sections and the stack and the arguments fit; its stack then decodes to the arguments, in an address space of frames that were free, whose kernel half is closed to it. The address space is dropped half built if and only if a header cut short is reached with everything before it placed; exactly its frames are then gone. If the call fails, every frame and address space is as before; the one other end is an argument longer than all memory below the stack page. In no case is another address space touched |
| KernelMemory.Kernel.LoadSections | UoDOS/exec.c:69-133 | the same from the new directory on, with the loop over the headers |
| KernelMemory.Kernel.Finish | UoDOS/exec.c:104-133 | the end of it: arguments pushed and decoded, or everything given back |
| Counters.WrapSlot | UoDOS/pipe.c:112-139 | a counter that has wrapped at 2^32 leads to the same slot as one that has not |
| Counters.WindowPut | UoDOS/console.c:257 | writing at the front counter adds a byte at the end of the ring's contents |
| Counters.WindowTake | UoDOS/console.c:294 | moving the back counter on drops the first byte |
| Pipes.TestsExact | UoDOS/pipe.c:102-135 | the tests on the counters mean full and empty, whatever the counters have wrapped to |
| Pipes.StepKeeps | UoDOS/pipe.c:71-144 | every step of readers, writers, closes and kills keeps bytes first in, first out |
| Pipes.ReadIsPrefix | UoDOS/pipe.c:95-144 | in every run the bytes read are a prefix of the bytes written, at most 512 behind |
| Pipes.StepQuiet | UoDOS/pipe.c:95-144 | a step keeps every sleeper justified if and only if it is not a killed writer leaving a full pipe to a sleeping reader |
| Pipes.QuietExactly | UoDOS/pipe.c:95-144 | all states of a run have only justified sleepers if and only if no step of it is such a return |
| Pipes.NeverBothAsleep | UoDOS/pipe.c:102-132 | with the lock free, a sleeping reader means an empty open pipe and a sleeping writer a full one, so never both |
| Pipes.KilledAsleep | UoDOS/pipe.c:102-132 | in every run, a killed process is asleep in the pipe if and only if `kill` came after it had found itself not killed and before it slept, and nothing has woken it since |
| Pipes.SleepsThroughKill | UoDOS/pipe.c:125-131 | a run that ends with a killed reader asleep |
| Pipes.ReaderStranded | UoDOS/pipe.c:104-108 | a run that ends with 512 bytes in the pipe and its reader asleep |
| Pipes.Pipe.constructor | UoDOS/pipe.c:55-58 | an empty pipe, open at both ends |
| Pipes.Pipe.Write | UoDOS/pipe.c:100-113 | the bytes go in, in order, until they are all in or the pipe is full |
| Pipes.Pipe.Read | UoDOS/pipe.c:133-140 | as many of the oldest bytes come out as are asked for and there |
| Console.KeyKeeps | UoDOS/console.c:230-266 | every key keeps at most 128 bytes, no newline or ^D in the line being typed, and an empty line whenever the buffer is full |
| Console.KeysConcat | UoDOS/console.c:225-273 | keys in two batches are keys in one |
| Console.EraseUndoes | UoDOS/console.c:245-252 | a character and then ^H or DEL leave everything as it was, if and only if the character did not fill the buffer |
| Console.NothingTyped | UoDOS/console.c:234-252 | ^P, the key 0 and an eraser on an empty line change nothing |
| Console.FullOrFilled | UoDOS/console.c:254-263 | a full buffer takes no character; the one that fills it hands the line over |
| Console.TypeText | UoDOS/console.c:254-258 | text that fits goes into the line, in order, and hands nothing over |
| Console.KillsText | UoDOS/console.c:238-244 | text that fits and then ^U leave what was handed over before, and an empty line |
| Console.EndsText | UoDOS/console.c:256-263 | text that fits and then return, newline or ^D hand over exactly the line with that text and a newline, or a ^D, at its end |
| Console.PairCancels | UoDOS/console.c:245-252 | anywhere in a stream of keys, a character that does not fill the buffer and its eraser cancel |
| Console.StreamEdits | UoDOS/console.c:225-273 | a stream of keys that fits hands over, and leaves in the line, the stream with every erased character and its eraser cancelled, read backwards from its end and cut after the last end of a line |
| Console.RunEdits | UoDOS/console.c:225-315 | in every run of keys and reads, however full the buffer, what readers took, what waits for them and the line being typed are together the keys with every erased character and its eraser cancelled, and the first two are those up to the last key that handed a line over |
| Console.FullMeansReady | UoDOS/console.c:254-263 | in every run, a full buffer is all committed and every waiting reader can take from it |
| Console.RingFull | UoDOS/console.c:254-263 | a full ring has nothing being edited: the write and edit counters are equal |
| Console.StepKeeps | UoDOS/console.c:225-315 | keys, reads and kills in any order keep the accounts of every reader |
| Console.Delivered | UoDOS/console.c:225-315 | over every stream of keys and schedule of reads, bytes are taken in the order in which they were committed, each reader's calls gave it exactly what it took, with ^D as end of file, and no call went past a newline or its limit |
| Console.ShortRead | UoDOS/console.c:294-311 | in every run, a read that gives fewer bytes than asked and no newline has come to a ^D, which it leaves for the next read |
| Console.AppendOk | UoDOS/console.c:254-258 | a key stored in the ring, with wrapping counters, is a key added to the editor's line |
| Console.BackOk | UoDOS/console.c:245-252 | stepping the edit counter back drops the line's last byte |
| Console.TakeOk | UoDOS/console.c:294 | stepping the read counter on takes the first committed byte |
| Console.TakeIsRound | UoDOS/console.c:282-311 | a reader's step in a run is a round of the loop that `Input.Read` runs |
| Console.Input.KillLine | UoDOS/console.c:238-244 | ^U empties the line being typed and leaves what is committed |
| Console.Input.Press | UoDOS/console.c:232-266 | one key does to the ring what it does to the list editor, to which the laws of editing apply |
| Console.Input.Interrupt | UoDOS/console.c:225-273 | so do any number of keys: the ring's bytes are those of `Keys`, to which `StreamEdits` and the other laws apply |
| Console.Input.Read | UoDOS/console.c:282-311 | for every number of bytes, zero included, the loop gives the list editor's reply, or stops with nothing left to read |
| Console.DrainReads | UoDOS/console.c:282-311 | the loop stops exactly where it has all bytes asked for, after a newline, before a ^D unless it has nothing yet, or where there is no more; and gives the bytes up to there |
| Console.ReadUnique | UoDOS/console.c:282-311 | there is only one such place and reply |
| ShellGrammar.Complete | UoDOS/sh.c:363-496 | every sentence of the grammar with at most nine words a command is parsed, to what it means: redirections nest inside out, pipes and lists group to the right, `>` and `>>` mean the same |
| ShellGrammar.LineSound | UoDOS/sh.c:380-396 | whatever the line parser accepts is a sentence of the grammar, followed by what it leaves |
| ShellGrammar.ParserExact | UoDOS/sh.c:363-496 | the parser accepts exactly the sentences of the grammar and gives exactly their meaning |
| ShellGrammar.Unambiguous | UoDOS/sh.c:363-496 | no sequence of tokens has two meanings |
| ShellText.LexOk | UoDOS/sh.c:290-343 | every word token is a longest run of word characters, at the place it says |
| ShellPrinter.LexSpell | UoDOS/sh.c:290-343 | tokens written out with any spaces between them, as long as no two run together, are read back, symbols right after words included |
| ShellPrinter.SpellLex | UoDOS/sh.c:290-343 | every line is its tokens written out with only spaces between them |
| ShellPrinter.LexExactly | UoDOS/sh.c:290-343 | the tokens of a line are exactly those that it spells |
| ShellPrinter.LosesNothing | UoDOS/sh.c:290-343 | the texts of a line's tokens, one after the other, are the line without its spaces |
| ShellText.EndsOutside | UoDOS/sh.c:327-336 | the place after one word is never inside another |
| ShellText.ParsedWords | UoDOS/sh.c:411-496 | every argument and file name of a parsed command is a word of the line |
| ShellText.TerminatedAt | UoDOS/sh.c:499-547 | the termination pass writes a NUL after every argument and file name of the command, and nothing else |
| ShellText.WordsReadBack | UoDOS/sh.c:499-547 | after the pass every argument and file name, read as a C string from the buffer, is its original text |
| ShellPrinter.LexRender | UoDOS/sh.c:290-343 | tokens written out with spaces between them are read back as the same tokens |
| ShellPrinter.RoundTrip | UoDOS/sh.c:290-496 | for every command with at most nine words each, parsing its canonical printing gives it back |
| ShellPrinter.Normalise | UoDOS/sh.c:290-496 | for every line that is accepted, the canonical printing of its command is accepted and gives the same command |
| ShellReader.Reader.GetToken | UoDOS/sh.c:290-343 | takes the first token of the rest of the line, which `LexExactly` says is spelled there, and leaves all tokens after it, moving the cursor on unless there is none |
| ShellReader.Reader.Peek | UoDOS/sh.c:345-356 | says whether the next token starts with one of the characters, and takes nothing |
| ShellReader.Reader.ParseCommandLine | UoDOS/sh.c:380-396 | terminates on all input, with the command or the panic of the grammar's parser and the cursor where it leaves off |
| ShellReader.Reader.ParsePipeline | UoDOS/sh.c:398-409 | the same for pipelines |
| ShellReader.Reader.ParseRedirections | UoDOS/sh.c:411-437 | the same for redirections |
| ShellReader.Reader.ParseParens | UoDOS/sh.c:439-456 | the same for blocks |
| ShellReader.Reader.ParseSimple | UoDOS/sh.c:458-496 | the same for simple commands |
| ShellReader.Reader.ParseArguments | UoDOS/sh.c:469-496 | the same for words and redirections in any order, ten words being a panic |
| ShellReader.NulTerminate | UoDOS/sh.c:499-547 | the recursion over the command writes the buffer of `Terminated` |
| ShellReader.ParseCommand | UoDOS/sh.c:363-378 | the command, with all its words C strings in the buffer, or the panic, with the buffer untouched |
| Fat12.DecodePack | UoDOS/fs.c:279-305 | decoding inverts the packing of 12-bit entries, for every table and every cluster |
| Fat12.PackDecode | UoDOS/fs.c:279-305 | packing inverts decoding, for every table of whole pairs |
| Fat12.TableBound | UoDOS/fs.c:279-283 | the entry of a cluster lies inside the table in memory exactly up to cluster 3412 |
| Fat12.InsideRead | UoDOS/fs.c:116-163 | a read within a cluster that stays inside its sectors' buffers gives exactly the bytes of the cluster at that place |
| Fat12.ReadRightExactly | UoDOS/fs.c:147-161 | a read within a cluster is right on every disk if and only if it starts on a sector boundary or does not cross one |
| Fat12.LimitIs | UoDOS/fs.c:333-347 | reading stops after the first cluster that reaches the file's size, or after the chain |
| Fat12.FileReadExact | UoDOS/fs.c:309-351 | such a read gives exactly the bytes of the concatenated clusters at the file's position, moves the position on by their number, and sets end of file exactly when the size or the chain is used up |
| Fat12.FileReadWithin | UoDOS/fs.c:333-341 | such a read of a file stays within the file if and only if it starts there and asks for no more than is left, or the size is a whole number of clusters, or the chain ends first |
| Fat12.FileReadPast | UoDOS/fs.c:309-341 | at or past its end, a file not yet marked so gives exactly the rest of the cluster it stands in, and is then marked |
| Fat12.PastTheEnd | UoDOS/fs.c:333-341 | a one-byte file from which 512 bytes are read |
| Fat12.FileReadExactly | UoDOS/fs.c:309-351 | a file is read right on every disk with its chain if and only if the read starts on a sector boundary or stays in its first sector |
| Fat12.ReadCluster | UoDOS/fs.c:116-163 | the clamps compute the part of the cluster, and the loop `ClusterRead`; which bytes of the disk the cluster is made of is `ClusterLies` |
| Fat12.ClusterLies | UoDOS/fs.c:134 | byte k of cluster c is byte k of the run of sectors that starts at the data area plus c - 2 clusters, for every cluster on the disk |
| Fat12.ZeroLies | UoDOS/fs.c:134 | cluster 0 is the run of sectors two clusters before the data area |
| Fat12.ChainPacked | UoDOS/fs.c:279-305 | a list of clusters is a chain of a packed table if and only if each entry of the table is the next cluster and the last one 0 or an end mark |
| Fat12.ChainLies | UoDOS/fs.c:309-351 | byte x of a file lies in cluster number x / size of its chain, at the place in the data area that the cluster's number says |
| Fat12.ReadLies | UoDOS/fs.c:309-351 | a read that stays inside its sectors' buffers, on a file whose chain is on the disk, gives bytes, those that lie on the disk from the file's position on, moves the position past them, and gives fewer than asked only at the end |
| Fat12.ZeroBytes | UoDOS/fs.c:116-163 | the bytes that a read of cluster 0 gives are those two clusters before the data area |
| Fat12.ReadSectors | UoDOS/fs.c:147-161 | the loop over sectors gives the chunks that the offset and the size say |
| Fat12.Seek | UoDOS/fs.c:317-325 | on any table, following it for a number of hops, or straying outside it, as `Sought` says |
| Fat12.ReadAlongChain | UoDOS/fs.c:309-351 | on a file whose chain reaches its position, the read of the code is the read along that chain |
| Fat12.PastTheChain | UoDOS/fs.c:317-325 | past the end of a chain the walk goes on from cluster 0, by the table's first entry |
| Fat12.OffTheChain | UoDOS/fs.c:317-325 | on a formatted disk the walk ends at cluster 0 exactly when the position lies past the file's chain |
| Fat12.ReadOffTheChain | UoDOS/fs.c:309-351 | such a read gives exactly the bytes at that offset of cluster 0, no more than one cluster of them, and marks the file as at its end |
| Fat12.ReadEmptyFile | UoDOS/fs.c:309-351 | so does every read of a file whose first cluster is 0 |
| Fat12.OpenFile.Read | UoDOS/fs.c:309-351 | on any table, file and position, the loops compute `AnyRead`, with position and end of file, or stray outside the table; for every file whose chain is on the disk, a read that stays inside its sectors' buffers gives the bytes that lie on the disk from the old position on |

## Left out

- Port I/O, interrupt controllers, UART, segment tables, boot code and context-switch assembly: a switch is one step made while the process table's lock is held.
- Disk errors: the interrupt handler marks a buffer valid even after an error, and the model takes devices to be error-free.
- Liveness and fairness of the scheduler: the theorems say that no sleeper is left in a state where it should have been woken.
- Pid overflow and `kill(0)`: pids are unbounded and positive.
- Descriptor counting in `file.c` and `sysfile.c`, name lookup in `fs.c`, and the headers and file contents that `exec` reads: exact properties there are mostly exceptions.
- The loading of the table in `fsFat12Initialise`: the table is taken as already in memory.
- The memory that `malloc` gives the shell for its nodes: commands are values, so the in-place filling of an exec node that is already wrapped in redirections is not captured.
- Pipes after both ends are closed: the page is freed then, and a process that is inside a call keeps its end open.
- The moment between a console reader's test of `IsKilled` and its `sleep`: a waiting reader is one for which nothing is committed, asleep or not.
- Sleeping in pipe and console calls: the methods of `Pipe` and `Input` run up to where the caller must sleep, and the transition systems interleave them.
- Hardware exceptions: a read through a null page-table pointer is an outcome of its own (`Wild`) about which nothing is claimed.
- KernelMemory.Kernel.LoadProgram: sections are given by the addresses where they end and whether they can be read; their bytes, and the dropping of the old address space, are not part of it.
- KernelMemory.Kernel.CleanUp: speaks of memory only. From line 98 of `exec.c` on the file has already been closed, and `cleanupExec` closes it once more after giving memory back; with no other reference left `fileClose` then panics (`file.c:68-71`), so that those failures do not return.
- KernelMemory.Kernel.Allocate: pages that are already mapped in the range are excluded, where the source panics with "remap"; `GrowProcess` and `LoadProgram` never ask for such a range.
- Heap.Allocator.Malloc: an unsafe call is followed up to the `sbrk` of zero or a negative amount, not beyond.
- Fat12.OpenFile.Read: a walk that strays outside the table in memory is an outcome of its own (`Stray`) about which nothing is claimed.
- SpaceCopies.SetUpOk: the linker's `data` symbol is taken to be page-aligned and between 1 MB and the top of memory.
