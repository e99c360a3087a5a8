# Verification of risky321

A Dafny model of the risky321 kernel (RV32, Sv32 paging) and of its user heap,
with proofs of what its parts promise together. `dafny verify dfyconfig.toml`
checks the whole project.

## What is modelled

The main part is the kernel core: the page allocator whose free list is threaded
through the free pages, two-level page tables, process creation, fork, exec,
exit, kill, sbrk, sleep, trap entry and exit, system-call dispatch and the
round-robin scheduler, with the files, descriptors and terminal its system calls
reach. Its operations are functions on one machine state (physical memory word
by word, process table, satp, registers, files, terminal). Three layers are
connected by proofs:

1. `Machine.Next` is one step of the machine: a user instruction through the
   MMU, an ecall, an interrupt, a dispatch.
2. `AbstractOs.AStep` is the same system as its processes should see it: each
   process has registers, a pc and an address space of its own, files and terminal
   are as in the machine, and there are no page tables or trap frames.
   `Refinement.RunRefines` proves that over every run the machine implements it,
   keeps its invariant, never reaches a fault, and panics exactly at the steps that
   `Halting.Stops` names: an access the page table does not permit, an unknown call
   number, or a fork, exec or sbrk for which a slot or an exact number of pages is
   missing. `Boot.SystemRefines` starts that run at power-on. Isolation, ownership,
   accounting and fairness are consequences.
3. `RamImpl.Ram` and `KernelImpl.Kernel` are classes with the source's loops and
   stores in place. Each method is proved equal to the function that specifies
   it, up to `KernelImpl.Kernel.Step` and `KernelImpl.PowerUp`.

The terminal's line discipline (`Tty`), the ustar loader and the open-file table
with its descriptors (`Ustar`, `OpenFiles`, `FileSystemImpl`) have theorems about
their own runs. `Devices` puts them behind the system calls, and `SystemFiles`
proves that over every run of the system they go through exactly the events of
its processes, so those theorems hold of the system. `Programs` follows an
executable from its ELF and ustar layouts on the disk to the process that exec of
its name makes of it (`ElfLayout`, `Ustar`). The virtqueue protocol
between block driver and device (`Virtq`) and the user heap (`UserHeap`,
`AllocationRuns`) stand beside it. Each is a set of functions with theorems about
every run, and a class with the source's loops that refines them.

## How to read the model

- `Outcome` separates `Halt`, which is kpanic, from `Fault`, an access or a jump
  the code was never meant to make: a null or wild pointer, a write outside a
  page, a descriptor that is closed or behind its array, a page taken from the
  free list while the loaded root is on it, a dispatch to a process that has been
  freed or to a stack pointer that is not its own. Faults are proved unreachable
  for programs that keep to the rules below.
- A page pointer is a frame number; a frame is 1024 words. Table entries are
  handled arithmetically; `PteBits` proves that this is what the shifts and masks
  of kvmem.c compute.
- `role` is a ghost record of who owns each frame. It decides nothing; that it
  describes the tables in memory is part of the invariant.
- User code is any sequence of events that compute, load, store or trap. The
  strings a system call finds in user memory are named by the event (`Env`), and
  `CallOk` says that they are there.
- RAM is a parameter (`Boot.RamOk`): it ends below user space and has at most
  0x3FFFE free pages, 16384 in kernel/kernel.ld:36-38. `Boot.BootHaltsIff`
  says exactly how many pages boot needs.
- The guarantees cover calls that meet `AbstractOs.CallOk`, none of which the code
  checks. The descriptor of a read is below 3 or open, and that of a close below 8
  (`FdOk`; `Refinement.FaultsIff` proves this exact). A buffer that is read into
  lies in the caller's writable pages, and what it writes, the path of an open or
  exec and argv in its pages (`MemoryOk`; the code would end in a page fault
  inside the kernel). An executable's segments lie in user space, and exec's
  arguments fit a page. `ArgumentVector.ArgumentsFit` shows that the last condition
  is exact: anything longer is written below the stack page.

## What turned out not to hold

- No descriptor is checked. close(8) stores into the record of the next slot, and a
  read through a closed descriptor follows NULL. `Refinement.FaultsIff` says exactly
  which calls go wrong; `Refinement.CloseEight` that any process can do it at any
  time.
- Nothing closes a process's descriptors when it ends, and fork and kproc_create do
  not clear them: a process starts with what the last one in its slot left open
  (`SystemFiles.StepKeepsFiles`).
- exit frees the root page that satp still holds, and overwrites its first word
  with a free-list link (`Ownership.ExitFreesLoadedRoot`). `Ownership.LoadedRootFreeIff`
  says exactly when the loaded root is free. The kernel survives because nothing
  below 4 MiB is needed before the next root is loaded, and everything above stays
  mapped until then (`Ownership.RunsKeepKernelMapped`, `Ownership.DispatchStaysMapped`),
  and because no page is allocated in between.
- Pages of images, heaps and second-level tables are never freed, and exec drops
  the old root, trap frame and stack. `Leaks` states it as a property: a leaked
  page stays leaked. The heap break survives its process for the same reason, and
  kproc_create and fork do not set it.
- umalloc's split does not relink the old successor or head.prev.
  `UserHeap.TakeSoundIff` says exactly when a call keeps the list in order, and
  `UserHeap.FirstSplitBreaks` that a program's first call does not.
  `AllocationRuns.MixedRunOverlaps` follows a run of five allocations and three frees
  to two blocks in use that overlap. `UserHeap.RelinkedSplitSound` and
  `MixedRunSound` are about a changed split and say so.
- TtyRead on a full ring with nothing to deliver sets isEmpty and the terminal is
  stuck for good; `Tty.ProperIsExact` is the exact condition, and a line of 1024
  characters gets there (`Tty.LongLineSticks`).
- A request of umalloc above 0xFFFFFFE8 wraps around, and gets a block of no bytes or
  has a header stored over the header of its own chunk. `AllocationRuns.ServedIff`
  says exactly which requests are served, and `AllocationRuns.HugeRequestFits` that
  the first page of a heap is enough for such a call to return.
- A file that does not exist is found exactly for the empty path while a slot of the
  file table is empty (`OpenFiles.AbsentFoundIff`, for every table that loading leaves,
  `OpenFiles.LoadedNames`).
- An open that finds a file and an os_file but no free descriptor, and no other call,
  takes that os_file out of service (`OpenFiles.StepLosesIff`), for ever
  (`OpenFiles.LostForever`, and `SystemFiles.SystemLoses` for the whole system).

## Model

| member | source | states |
|---|---|---|
| `Pages.AllocOk` | kernel/kmem.c:25-43 | kmem_alloc halts exactly when the list is empty; otherwise it hands out a zeroed page that was free, and the list stays linked, duplicate-free and complete, with no table touched |
| `Pages.ReleaseOk` | kernel/kmem.c:45-50 | kmem_free of a page in use keeps list, tables and every translation |
| `PteBits.EncodeIs` | kernel/kvmem.c:48-55 | the shifts and masks that build an entry give page number above flags, with V set, for every address and flags |
| `PteBits.DecodeIs` | kernel/kvmem.c:53-53 | masking and shifting an entry gives back its page's address, and the V test its validity |
| `PteBits.RetargetIs` | kernel/kvmem.c:83-85 | fork's rewriting of an entry replaces the page and keeps every flag |
| `PteBits.IndicesAre` | kernel/kvmem.c:43-44 | the two index expressions are the quotients the model uses |
| `PageTables.MapPageOk` | kernel/kvmem.c:37-56 | mapping refines a finite map: the page now translates to the frame with the flags, every other page of every table is unchanged, at most one page is taken, and it halts exactly when a second-level table is missing and no page is left |
| `PageTables.WalkAgrees` | kernel/kvmem.c:99-116 | on every table the kernel builds, kvmem_get_pa, the kernel's own lookup and the address translation of section 4.3.2 of the RISC-V Privileged Architecture agree |
| `TableCopy.CopyTableOk` | kernel/kvmem.c:59-97 | copying a table copies every leaf (same frame for kernel pages, fresh equal frame for user pages), changes no other table, and takes exactly 1 + second-level tables + user leaves pages; it halts exactly when there are fewer |
| `ForkedTables.ForkCopies` | kernel/kproc.c:203-255 | fork, page by page, across the two states: the child maps what the parent maps with the same flags, own frames with the parent's bytes for user pages, its own frame at VA_TRAPFRAME; its exact price, and exactly when it halts |
| `ForkedTables.ForkKeepsParent` | kernel/kproc.c:223-231 | fork leaves every translation and every user page of the parent alone |
| `Spaces.SpaceMapUser` | kernel/kvmem.c:37-56 | mapping a user page is an update of the address space at that page |
| `Building.MapKernelOk` | kernel/kproc.c:72-76 | the identity-mapping loop maps every physical page at its own address, for the kernel only |
| `Building.BuildImageOk` | kernel/kproc.c:52-127 | a built image has its own pages, all free before, the identity map, trap frame and stack in their places, and exactly the address space of the ELF file plus a zero stack page |
| `Images.LoadSegmentsOk` | kernel/kproc.c:89-116 | the loader's effect on the address space is the image described by the headers, and it takes one frame per image page |
| `ImageBytes.ExecImageBytes` | kernel/kproc.c:312-341 | after exec every byte of every segment is the file's byte at the segment's offset, wherever the file has one, and the rest of its last page is zero |
| `ImageBytes.CreateImageBytes` | kernel/kproc.c:89-116 | the same for kproc_create |
| `ImageBytes.ImageAccess` | kernel/kproc.c:96-114 | every page of an image can be read, written and executed |
| `ImageBytes.StackWritable` | kernel/kproc.c:121-125 | every byte of a new program's stack page can be stored to |
| `ImageBytes.SbrkWritable` | kernel/kproc.c:407-415 | so can every byte of the page that sbrk has just returned |
| `ElfLayout.ParsesBack` | kernel/elf.h:8-50 | parsing inverts the ELF32 layout: from any file that begins with an ELF header and has its program headers where that says, entry point, count and the fields of every segment come back |
| `ElfLayout.BuiltElf` | kernel/elf.h:8-50 | header and table laid out one after the other, followed by anything, are such a file |
| `Programs.ElfExecuted` | kernel/kproc.c:308-341 | exec of such a file starts at its entry point, with every byte of every segment in place |
| `Programs.ElfCreated` | kernel/kproc.c:82-116 | so does kproc_create |
| `Programs.FoundIs` | kernel/filesystem.c:95-121 | on an archive with different names, the lookup of a name gives the data of just that file, and nothing for any other name but the empty one |
| `Programs.FilesStay` | kernel/filesystem.c:123-201 | no run of the system changes a file |
| `Programs.ExecRunsProgram` | kernel/kproc.c:258-387 | after any run from power-on, exec of the name of an archive's executable makes the caller that program: at its entry point, its segments in place, its arguments counted in a0 |
| `Programs.ExecOfNoProgram` | kernel/kproc.c:272-276 | exec of any other name changes nothing |
| `Programs.ShellRuns` | kernel/kernel.c:53-62 | the third file of the archive is the first process, at its entry point, its segments in place |
| `ImageBytes.SbrkConsecutive` | kernel/kproc.c:407-415 | any number of sbrk calls gives consecutive zero pages and leaves every other page alone |
| `ImageBytes.ExecThenSbrk` | kernel/kproc.c:323-339 | for a packed image and any earlier break of the slot: the break moves up by exactly the image's pages, and after any number of sbrk calls above it the image is still the file's |
| `ImageBytes.FirstExecThenSbrk` | kernel/kproc.c:323-339 | in a slot whose break has not moved, all segments end at or below the address the first sbrk returns, which is right above the image |
| `ArgumentVector.ArgumentsFit` | kernel/kproc.c:354-377 | passing arguments stays inside the stack page if and only if strings and pointers fit it |
| `ArgumentVector.ArgumentsPlaced` | kernel/kproc.c:357-376 | each string lies whole and terminated at its own offset and pointer j leads to string j; sp follows the physical cursor |
| `ArgumentVector.ArgumentsDelivered` | kernel/kproc.c:379-381 | after exec a0 counts the arguments and the pointers at a1, followed through the new address space, give exactly the strings passed |
| `ArgumentVector.ArgvUnique` | kernel/kproc.c:261-268 | the caller's memory determines the argument list |
| `Traps.TrapEntryOk` | kernel/uservec.S:47-118 | a trap saves registers and pc in the running process's own frame and changes nothing any process can see |
| `Traps.EnterUserOk` | kernel/ktrap.c:153-181 | the return to user mode loads the process's own root, registers and pc |
| `UserMemory.MmuSpace` | kernel/kvmem.c:37-56 | through satp user mode reaches a page exactly where a leaf with the U flag was stored, with that leaf's frame and flags |
| `UserMemory.StoreBytesOk` | kernel/ktrap.c:84-87 | a buffer copied out by a system call arrives, byte for byte, in the caller's address space and nowhere else |
| `Forking.ForkOk` | kernel/kproc.c:203-255 | fork keeps the invariant and is the abstract fork: the child is the parent but for a0 |
| `Executing.ExecOk` | kernel/kproc.c:258-387 | exec keeps the invariant and replaces the running process by a fresh one entered at the ELF entry point; nobody else changes |
| `Ending.ExitOk` | kernel/kproc.c:131-141 | exit never faults, puts exactly the stack page, the root and the trap frame on the free list and removes the running process and nothing else; the freed root that stays loaded still maps the kernel |
| `Ending.KillFromOk` | kernel/kproc.c:151-160 | kill removes exactly the process with the pid, whoever runs |
| `Ending.KillSparesOthers` | kernel/kproc.c:144-163 | every slot but the one with the pid is as before |
| `Ending.KillFrees` | kernel/kproc.c:151-160 | kill puts exactly stack page, root and trap frame of the process it names on the free list, and nothing if there is none |
| `Growing.AddPageOk` | kernel/kproc.c:407-415 | sbrk adds a zero page at the break, which cannot reach stack or trap frame and does not wrap |
| `Growing.BreakInRange` | kernel/kproc.c:407-415 | every break plus the free pages stays at or below the stack page |
| `Invariant.HeapBound` | kernel/kproc.c:323-339 | pages under the breaks and free pages are different pages of RAM |
| `Steps.SyscallOk` | kernel/ktrap.c:76-125 | every system call that keeps to the rules does what the abstract system says, the pc moved past the ecall first, and panics exactly in the cases of `Halting.CallStops`, said of the state before it: never for exit, kill, getpid, sleep, open, write, read and close; one with a descriptor that cannot be handled faults |
| `Refinement.DispatchOk` | kernel/kproc.c:389-405 | a dispatch resumes the next process of the scan with what it had saved, on its own kernel stack, where the last swtch or the creation left its sp; a freed slot is never entered |
| `Refinement.NextOk` | kernel/ktrap.c:35-181 | one step keeps the invariant, cannot fault, is a step of the abstract system, and panics exactly if `Halting.Stops` holds of the state before it |
| `Refinement.RunRefines` | kernel/ktrap.c:35-181 | the same over every run, with any interleaving of processes: a run panics exactly when one of its steps is such a step |
| `Refinement.FaultsIff` | kernel/kproc.c:186-200 | among calls whose buffers and strings are in order exactly these go wrong: a read through a descriptor that is closed or 8 and above, a close of one 8 and above |
| `Refinement.CloseEight` | kernel/kproc.c:186-195 | close(8) goes wrong for every process in every good state |
| `Devices.ReadFdOk` | kernel/ksyscall.c:12-30 | of the terminal, the output descriptors and all others, a read goes wrong exactly for a descriptor that is closed or out of range, and keeps the tables in order |
| `Devices.CloseFdOk` | kernel/ksyscall.c:61-64 | a close goes wrong exactly for a descriptor out of range, and keeps them in order |
| `SystemFiles.RunFollows` | kernel/ktrap.c:84-108 | over every run of the system, files and terminal go through exactly the runs of opens, reads, closes and keys its steps make, and those runs do not fault |
| `SystemFiles.SystemReads` | kernel/filesystem.c:159-178 | while a process keeps a descriptor open, all it reads through it over a run of the system is the next stretch of the file, as long as it asked for in all or up to the end, whatever the other processes do |
| `SystemFiles.ReadFillsBuffer` | kernel/ktrap.c:84-87 | a read puts into the caller's buffer the file's bytes from the position on, as many as asked for or as there are, or the front of the terminal's finished lines, and their number into a0; it moves the position by as much and changes no other byte of any process |
| `SystemFiles.CloseCloses` | kernel/ktrap.c:106-109 | after close of an open descriptor it is NULL, its os_file is free, a0 is 0, and every other descriptor stands where it stood |
| `Programs.SystemEdits` | kernel/tty.c:12-109 | over every run from power-on with proper reads of the terminal, what was read followed by the finished lines is the edited text of the keys taken |
| `Programs.SystemLine` | kernel/tty.c:12-109 | in every state reached from power-on the terminal holds a line or is stuck |
| `SystemFiles.SystemLoses` | kernel/kproc.c:172-184 | an open without a free descriptor takes an os_file out of service for every run of the system that follows |
| `SystemFiles.StepKeepsFiles` | kernel/kproc.c:131-163 | no step but a process's own reads, opens and closes touches the descriptors of its slot, or their positions; not even exit, kill, fork or exec |
| `SystemFiles.RunKeepsFiles` | kernel/kproc.c:172-200 | a process that is left alone finds its files, and its place in each, as it left them |
| `Boot.FreeRamOk` | kernel/kmem.c:14-22 | kmem_init puts every page of free RAM on the list exactly once |
| `Boot.CreateOk` | kernel/kproc.c:33-128 | kproc_create fills the first free slot with a fresh process and leaves the others alone |
| `Boot.BootOk` | kernel/kernel.c:22-65 | boot halts, for lack of memory or at a file that is too large, or reaches the invariant with the third file of the disk as the only process and nothing open |
| `Boot.BootHaltsIff` | kernel/kernel.c:22-65 | boot halts exactly for a file that is too large or with fewer pages of RAM than kernel tables, driver and shell cost |
| `Capacity.MapKernelCost` | kernel/kvmem.c:26-34 | the identity map of a fresh table costs exactly one page per 1024 pages of memory, and halts exactly when there are fewer |
| `Capacity.LoadSegmentsCost` | kernel/kproc.c:89-116 | the loader takes exactly one page per image page and one per second-level table that is missing, and halts exactly when there are fewer |
| `Capacity.BuildImageCost` | kernel/kproc.c:52-127 | the exact price of a process: root, trap frame, identity map, image, stack and second-level tables; building it halts exactly when there are fewer free pages |
| `Halting.ForkHalts` | kernel/kproc.c:203-255 | fork ends in kpanic exactly without a free slot or without two pages and one per second-level table and user page of the parent |
| `Halting.ExecHalts` | kernel/kproc.c:281-387 | exec of a file ends in kpanic exactly when there are fewer free pages than its price |
| `Halting.AddPageHalts` | kernel/kproc.c:407-415 | sbrk ends in kpanic exactly without a free page, or without a second one when the second-level table is missing |
| `Halting.AccessIs` | kernel/kvmem.c:37-56 | what the page table permits user mode is what its address space holds, for loads and stores |
| `Boot.SystemRefines` | kernel/kernel.c:22-65 | from power-on, every run implements the abstract system and never faults, and panics exactly if boot does or one of its steps is one that does: in particular no page is allocated while the loaded root is free, and the panic behind the yield of kproc_free is not reached |
| `Ownership.PagesDisjoint` | kernel/kproc.c:33-163 | roots, second-level tables, trap frames and user pages of all live processes are pairwise different frames, none of them free |
| `Ownership.FreeListOk` | kernel/kmem.c:25-50 | the free list is linked through its pages, without repetition, inside free RAM |
| `Ownership.RunsKeepPagesApart` | kernel/kproc.c:203-415 | in every state reachable from power-on: pages of live processes are pairwise different and not free, and the free list is linked through its pages, without repetition, inside RAM |
| `Ownership.SatpOk` | kernel/uservec.S:133-140 | while a process runs the loaded root is not free, maps all of RAM for the kernel, and leads VA_TRAPFRAME to the process's frame |
| `Ownership.ExitFreesLoadedRoot` | kernel/kproc.c:135-137 | after exit the loaded root is on the free list |
| `Ownership.ExitKeepsKernelMapped` | kernel/kproc.c:131-141 | and still translates every kernel page above 4 MiB as before |
| `Ownership.LoadedRootFreeIff` | kernel/kproc.c:131-141 | in every good state: the loaded root is a free page exactly while the scheduler runs behind the exit of the process it last switched to |
| `Ownership.KernelStaysMapped` | kernel/kvmem.c:26-34 | in every good state the loaded table, freed or not, maps every kernel page above 4 MiB at its own address |
| `Ownership.DispatchStaysMapped` | kernel/ktrap.c:165-181 | it still does after any store to the trap frame of the process about to be entered |
| `Ownership.DispatchStores` | kernel/ktrap.c:165-181 | a dispatch changes no other page before it loads that process's root |
| `Ownership.RunsKeepKernelMapped` | kernel/kproc.c:389-405 | loaded root and kernel mapping as above in every state reachable from power-on |
| `Ownership.HeapAccounts` | kernel/kproc.c:323-339 | in every good state heap pages plus free pages never exceed free RAM |
| `Leaks.RunLasting` | kernel/kproc.c:131-163 | over every run RAM keeps its size and leaked pages stay leaked |
| `Leaks.LeakedForever` | kernel/kproc.c:278-280 | a leaked page is never free again and never belongs to a live process |
| `Leaks.RunAccounts` | kernel/kproc.c:22-30 | over every run from power-on, heap pages plus free pages never exceed the initial page count, so no break passes the stack page or wraps, across reuse of slots |
| `Isolation.StepIsolates` | kernel/ktrap.c:76-125 | a step of another process, unless it is a kill that names it, leaves a process's registers, pc and memory alone |
| `Isolation.RunIsolates` | kernel/kproc.c:144-163 | the same over every run |
| `Isolation.ResumesUnchanged` | kernel/uservec.S:133-187 | a process resumes with exactly the registers, pc and memory it had when it gave up the processor |
| `Isolation.StoreIsPrivate` | kernel/kvmem.c:80-88 | no process sees another's stores |
| `RoundRobin.BoundedWait` | kernel/kproc.c:389-405 | a process that stays runnable is among the next eight dispatches, whatever is created and killed meanwhile |
| `RoundRobin.TakeTurns` | kernel/kproc.c:395-402 | two processes that stay runnable are dispatched alternately |
| `RoundRobin.ExactlyOnceBetween` | kernel/kproc.c:395-402 | between two consecutive dispatches of one process another that stays runnable is dispatched exactly once |
| `RoundRobin.LogIsDispatched` | kernel/kproc.c:389-405 | the dispatches of a run are the scan's choices on its process tables, so these bounds hold of every run |
| `RamImpl.Ram.Alloc` | kernel/kmem.c:25-43 | the method pops the list through the link word in the page, and is kmem_alloc's function |
| `RamImpl.Ram.Release` | kernel/kmem.c:45-50 | the method pushes the page and stores the link in it |
| `RamImpl.Ram.Init` | kernel/kmem.c:14-22 | the loop frees all of RAM, last page first on the list |
| `RamImpl.Ram.MapPage` | kernel/kvmem.c:37-56 | the stores of kvmem_map_page, the second-level table made on demand |
| `RamImpl.Ram.GetPa` | kernel/kvmem.c:99-116 | the lookup, both ways of failing included |
| `RamImpl.Ram.MapKernel` | kernel/kvmem.c:26-34 | the identity-mapping loop |
| `RamImpl.Ram.CopyPagetable` | kernel/kvmem.c:59-97 | the two nested loops over entries |
| `RamImpl.Ram.LoadSegment` | kernel/kproc.c:96-114 | full pages in a loop, then the remainder |
| `KernelImpl.Kernel.Create` | kernel/kproc.c:33-128 | the method is kproc_create's function |
| `KernelImpl.Kernel.Fork` | kernel/kproc.c:203-255 | the method is kproc_fork's function |
| `KernelImpl.Kernel.PassArguments` | kernel/kproc.c:354-381 | the argument loop, with sp kept in the trap frame, lays out the same page |
| `KernelImpl.Kernel.Exec` | kernel/kproc.c:258-387 | the method is kproc_exec's function |
| `KernelImpl.Kernel.Exit` | kernel/kproc.c:131-141 | the method is kproc_free's function |
| `KernelImpl.Kernel.KillOthers` | kernel/kproc.c:151-160 | the loop over slots is the recursive kill |
| `KernelImpl.Kernel.AddPage` | kernel/kproc.c:407-415 | the method is kproc_add_page's function and returns the old break |
| `KernelImpl.Kernel.TrapEntry` | kernel/uservec.S:47-118 | registers go to the page the MMU finds at VA_TRAPFRAME, the pc to the process's record of it, and these are the same page |
| `KernelImpl.Kernel.EnterUser` | kernel/ktrap.c:153-181 | satp, registers and pc are loaded through the process's own table |
| `KernelImpl.Kernel.Syscall` | kernel/ktrap.c:76-125 | the dispatch, call by call |
| `KernelImpl.Kernel.ReadCall` | kernel/ksyscall.c:12-30 | the method reads the descriptor and copies the bytes out, as the function says |
| `KernelImpl.Kernel.OpenCall` | kernel/ksyscall.c:56-59 | the method is ksys_open's function |
| `KernelImpl.Kernel.CloseCall` | kernel/ksyscall.c:61-64 | the method is ksys_close's function |
| `KernelImpl.Kernel.ExecPathCall` | kernel/kproc.c:258-278 | the method looks the path up, and does nothing if there is no such file |
| `KernelImpl.Kernel.UartInterruptHandle` | kernel/uart.c:64-86 | the loop hands every key to the terminal, in order |
| `KernelImpl.Kernel.Dispatch` | kernel/kproc.c:389-405 | the scheduler's search and switch |
| `KernelImpl.Kernel.Step` | kernel/ktrap.c:35-181 | one step of the running kernel is one step of the machine and of the abstract system, and keeps the invariant |
| `KernelImpl.PowerUp` | kernel/kernel.c:22-65 | boot, from untouched memory and a disk to the scheduler |
| `Tty.InsertRefines` | kernel/tty.c:12-64 | a key press edits the line; it is refused exactly when the ring is full |
| `Tty.ReadRefines` | kernel/tty.c:78-109 | a proper read delivers the front of the committed bytes, up to the length and up to a newline |
| `Tty.ProperIsExact` | kernel/tty.c:88-106 | after a read the ring holds a line again if and only if the read was proper; otherwise nothing was delivered and the terminal is stuck |
| `Tty.RunEdits` | kernel/tty.c:12-109 | over every interleaving of keys and proper reads, bytes read followed by committed bytes are the edited text of the keys taken, and the pending line its unfinished rest |
| `Tty.TerminalEdits` | kernel/tty.c:4-10 | the same from the empty terminal |
| `Tty.NeverFullIsProper` | kernel/tty.c:12-109 | while unread bytes stay below the buffer size every read is proper and every key is taken |
| `Tty.StuckForever` | kernel/tty.c:14-18 | a stuck terminal takes no key and delivers no byte, whatever happens |
| `Tty.LineOrStuck` | kernel/tty.c:12-109 | whatever keys and reads come, the ring holds a line or is stuck |
| `Tty.LongLineSticks` | kernel/tty.c:14-18 | after 1024 presses of a plain key on an empty terminal the next read, of any length, leaves it stuck, and nothing is ever read |
| `Tty.OneLine` | kernel/tty.c:97-100 | no read delivers a byte behind a newline |
| `Tty.Terminal.TtyBufferInsert` | kernel/tty.c:12-64 | the method's stores are the ring's function |
| `Tty.Terminal.TtyRead` | kernel/tty.c:78-109 | the copy loop is the ring's function, and fills just the front of the destination |
| `UserHeap.FreeSound` | user/umalloc.c:86-131 | ufree keeps mutual links, head.prev, tiling and no two free neighbours, frees exactly the chunk given, and conserves sizes plus headers |
| `UserHeap.GrowSound` | user/umalloc.c:133-160 | umorecore keeps the same and adds exactly 4096 bytes |
| `UserHeap.SplitBreaks` | user/umalloc.c:47-64 | after a split no list at all has mutual links and the right tail |
| `UserHeap.TakeSoundIff` | user/umalloc.c:42-64 | umalloc keeps the list in order if and only if the chunk it takes has just the right size |
| `UserHeap.FirstSplitBreaks` | user/umalloc.c:47-64 | a program's first allocation, of whatever size leaves room for a split, puts the list out of order |
| `UserHeap.SplitKeepsBytes` | user/umalloc.c:47-64 | the split loses no byte: the chunks on the list still add up to the whole heap, and exactly the chunk taken is in use on top of those before |
| `UserHeap.RelinkedSplitSound` | user/umalloc.c:99-108 | about a CHANGED split, relinked the way ufree relinks: it keeps the list in order and loses no byte |
| `UserHeap.MixedRunSound` | user/umalloc.c:86-160 | with that changed split the list stays in order over every run that mixes allocations and frees |
| `AllocationRuns.ModestIff` | user/umalloc.c:25-26 | exactly the requests whose rounding does not wrap |
| `AllocationRuns.ServedIff` | user/umalloc.c:25-64 | in 32-bit arithmetic, for every chunk that umalloc picks: the block is large enough and the header of the rest lies behind it if and only if the request is at most 0xFFFFFFE8; which of the two goes wrong for the others |
| `AllocationRuns.HugeRequestFits` | user/umalloc.c:25-64 | the first page of a heap has a chunk that umalloc picks for every such request |
| `AllocationRuns.MixedRunOverlaps` | user/umalloc.c:47-131 | a run of first-fit allocations and frees after which umalloc returns a block that contains another one still in use |
| `AllocationRuns.NeedShrinks` | user/umalloc.c:28-81 | each new page brings the search closer to success, so umalloc terminates |
| `AllocationRuns.Malloc` | user/umalloc.c:15-84 | a call returns a block for the request and keeps all earlier blocks |
| `AllocationRuns.RunOfAllocations` | user/umalloc.c:15-84 | over every run of allocations all blocks are pairwise disjoint, aligned to four bytes, at least as large as asked and inside obtained pages, though chunks drop off the list |
| `AllocationRuns.Allocator.Ufree` | user/umalloc.c:86-131 | the method's stores are ufree's function |
| `AllocationRuns.Allocator.Umorecore` | user/umalloc.c:133-160 | the method's stores are umorecore's function |
| `AllocationRuns.Allocator.Umalloc` | user/umalloc.c:15-84 | the nested search loops are first fit over the list |
| `Ustar.LoadSafe` | kernel/filesystem.c:36-80 | whatever is on the disk, loading halts or never writes past a data array |
| `Ustar.DataHalts` | kernel/filesystem.c:66-77 | it halts exactly for a size larger than the array |
| `Ustar.LoadInverts` | kernel/filesystem.c:36-80 | from any archive the loader recovers exactly names, sizes and data, in order, and changes nothing else |
| `Ustar.RoundTrip` | kernel/filesystem.c:23-80 | loading inverts the ustar layout of any list of at most twelve files |
| `OpenFiles.RunValid` | kernel/filesystem.c:123-201 | every run, with any descriptors, goes wrong exactly when it meets one that is out of range or closed; up to there descriptors of all slots lead to pairwise different os_files in use, with positions inside their files |
| `OpenFiles.ReadsConcatenate` | kernel/filesystem.c:159-178 | while a descriptor stays open, what is read through it is the next stretch of its file, whatever happens elsewhere: as many bytes as were asked for in all, or up to the end |
| `OpenFiles.ReadsArePrefix` | kernel/filesystem.c:123-178 | from the opening on it is the front of the file, as long as was asked for, or all of it |
| `OpenFiles.ReadsToTheEnd` | kernel/filesystem.c:159-178 | reads that ask for enough reach the end of the file |
| `OpenFiles.ReadIs` | kernel/filesystem.c:159-178 | one read: the bytes from the position on, as many as asked for or as there are; the position moves by as many, and nothing else changes |
| `OpenFiles.ReadNothing` | kernel/ksyscall.c:20-23 | descriptors 1 and 2 deliver nothing |
| `OpenFiles.CloseIs` | kernel/filesystem.c:180-201 | one close of an open descriptor: it is NULL and its os_file free, all else as before, result 0; a read through it is then an error, and the next open of a file succeeds |
| `OpenFiles.CloseNothing` | kernel/filesystem.c:183-193 | closing a closed descriptor changes nothing and returns -1, closing one below 3 changes nothing and returns 0 |
| `OpenFiles.OpenFailsIff` | kernel/filesystem.c:123-157 | an open fails exactly without such a file, a free os_file or a free descriptor |
| `OpenFiles.OpenIs` | kernel/filesystem.c:123-157 | otherwise the lowest free descriptor from 3 on stands at the beginning of the first file of that name, and nothing else changed |
| `OpenFiles.ReadValid` | kernel/filesystem.c:159-178 | a read goes wrong exactly for a descriptor out of range or closed, and keeps the tables in order |
| `OpenFiles.CloseValid` | kernel/filesystem.c:180-201 | a close goes wrong exactly for a descriptor out of range, and keeps the tables in order |
| `OpenFiles.LoadedNames` | kernel/filesystem.c:36-80 | after loading a file is present exactly when its name is not empty |
| `OpenFiles.AbsentFoundIff` | kernel/filesystem.c:95-106 | with such a table a file that does not exist is found exactly for the empty path while a slot is empty |
| `OpenFiles.StepLosesIff` | kernel/kproc.c:172-184 | every os_file in use keeps a descriptor if and only if the call is not an open that finds a file and an os_file but no free descriptor |
| `OpenFiles.LostForever` | kernel/filesystem.c:128-149 | an os_file in use without a descriptor stays so over every run |
| `FileSystemImpl.FileSystem.Init` | kernel/filesystem.c:36-80 | the method's loops are the loader's function |
| `FileSystemImpl.FileSystem.LoadOne` | kernel/filesystem.c:55-77 | the inner loop over sectors, with its panic |
| `FileSystemImpl.FileSystem.FileOpen` | kernel/filesystem.c:123-157 | the method is the function, both failures included |
| `FileSystemImpl.FileSystem.FileRead` | kernel/filesystem.c:159-178 | the copy loop returns the stretch from the cursor on and moves the cursor |
| `FileSystemImpl.FileSystem.FileClose` | kernel/filesystem.c:180-201 | the method is the function and keeps the table valid |
| `Virtq.DriverKeeps` | kernel/virtio.c:121-190 | every store of the driver keeps the protocol's invariant |
| `Virtq.DeviceKeeps` | kernel/virtio.c:168-175 | every step of the device keeps it |
| `Virtq.AtMostOne` | kernel/virtio.c:133-136 | at most one request is outstanding, and the driver waits exactly while it is |
| `Virtq.DriverWaits` | kernel/virtio.c:138-190 | while it is, the driver stores to neither descriptors nor request nor ring |
| `Virtq.DeviceWaits` | kernel/virtio.c:138-190 | while none is, the device touches nothing |
| `Virtq.DeviceProgress` | kernel/virtio.c:152-166 | the descriptor chain the device fetches is always the one it can follow, so it comes back after three turns |
| `Virtq.ReadsLeaveDisk` | kernel/virtio.c:146-150 | a run of reads leaves the disk as it was |
| `Virtq.CallReturns` | kernel/virtio.c:138-190 | a call that ends well has read, or written, just that sector; one out of range ends before anything is stored |
| `Virtq.RunReturns` | kernel/virtio.c:121-190 | in every interleaving and across every wrap of the indices |
| `Virtq.BlockDriver.VirtqKick` | kernel/virtio.c:121-130 | the ring entry, the index and the count, both modulo 2^16 |
| `Virtq.BlockDriver.VirtioRw` | kernel/virtio.c:138-190 | with a device that answers, the call ends, and reads or writes exactly the sector |

## Left out

- UART, PLIC, CSR and start-up code, and the register set-up of virtio_blk_init: device and privileged-register access; a queue that has been set up is assumed.
- kernelvec.S and traps taken in supervisor mode: interrupts are off while the kernel runs, and an insertion into the terminal's ring is one step.
- Exceptions of user code other than page faults: they all end in kpanic, as a faulting access does here.
- Instruction fetch: a user instruction may change registers and pc in any way; loads and stores go through the page table.
- The TLB, accessed and dirty bits, and caches.
- The contents of kernel stacks, and callee-saved registers across swtch: ra and sp of a saved context are modelled, the stack frames are not.
- What a call with an unchecked descriptor does to the fields behind the array: it is a fault, and nothing is said about the states after it.
- The bytes behind the 4 MiB array of a file: a program header or a segment that reaches past it reads zeros in the model, and `ImageBytes` claims nothing about them.
- `Leaks.LeakedForever`: counts a page as leaked when its slot gives it up; a page that exec or sbrk maps another one over counts only when the process ends or calls exec.
- Zero-fill between filesz and memsz: the loader copies memsz bytes from the file, and nothing else is claimed.
- memcpy and memset are sequence operations; memmove and memcmp have no caller in the C code.
- Output functions, the unused spin lock, kterminal.c, and the shell, echo and cat programs.
- Addresses of the user heap are unbounded; that sbrk hands out consecutive pages below the stack is proved of the kernel (`ImageBytes.SbrkConsecutive`, `Leaks.RunAccounts`).
- Payload bytes in user heap blocks: only headers and extents are modelled.
- `Virtq.BlockDriver.VirtioRw`: lets the device act only while the driver waits, and answer for good; every other interleaving is covered by the lemmas about `Virtq.Run`.
- `KernelImpl.Kernel.Dispatch`: one search around the table; the endless loop around it, which finds nothing while no process is runnable, is a sequence of dispatch events.
