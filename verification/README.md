# TheOS-Reborn kernel: verified model

A Dafny 4.11 model of the parts of the TheOS-Reborn x86_64 kernel whose correctness is hardest to
see in the source, with proofs of what they promise. `dafny verify dfyconfig.toml` checks all of it.

- **Copy-on-write address spaces** (`Paging`, `CowSteps`, `CowRuns`, `CowEffects`, `CowWalks`,
  `CowTable`, `UserMemory`, `CowKernel`). Memory is four levels of 512-entry page tables, pages, the
  fixed table of COW reference counts and the frames the physical allocator holds. `CowSteps` lists
  the actions that fork, exit, the fault handler, copy-out, unmap and the program itself take. A
  decrement that a fault handler or unmap owes between switching an entry and calling ref_sub is part
  of the state (`credit`). `CowKernel.AddressSpaces` is the kernel's own code, updating that state in
  place by loops and recursion, with a ghost trace of the actions it took and the set of PML4s that are
  live spaces. What a program sees is `View`, a function from a root and a path of four table indices
  to permissions and contents.
- **Many CPUs on that memory** (`CowMachine`, `CowShares`, `CowLive`, `CowStale`, `CowWindow`,
  `CowFault`, `CowRace`, `CowDispatch`, `CowJoint`). Fork clones without a lock, so here its load of an
  entry, its ref_add and its two stores are four moves and other CPUs act between any two of them. The
  world also keeps the books on tables: the live spaces, and for each CPU the tables it is building or
  tearing down. A run is *calm* if no move rewrites the source entry of a share in flight; `CowLive`
  proves the counts, conservation and isolation of every calm run from boot. `CowWindow` lets other CPUs
  do anything to the source of one share and says exactly when memory is in order after it, `CowFault`
  does the same for the fault resolver with a clone in between, `CowRace` gives runs that are not calm,
  and `CowJoint` runs process table and memory together and says when the process table makes every
  move calm.
- **The process table and SMP dispatch** (`ProcTable`, `ProcSafety`, `ProcPicks`, `ProcRuns`,
  `ProcWaiting`, `ProcWitness`, `Scheduler`). Each critical section under `proc_lock` is one step, and so is what a
  CPU does after dropping the lock: the CR3 load, the free of a space, the unlocked parts of fork and
  exec. `Scheduler.ProcessTable` is the code with its scans.
- **TLB shootdown** (`TlbShootdown`). Requester and interrupt handler take one shared access at a
  time, under sequential consistency, in any order.
- **Exec** (`ExecLoader`, `InitialStack`). Extents, placement and the dependency worklist; the bytes
  of the first stack.
- **Buffers** (`Rings`, `PipeRead`, `RegularFile`, `PathName`, `E1000Receive`). Pipe and console rings,
  reading a pipe into a program's memory, regular file descriptors, the path normaliser, the E1000
  receive path with the device as a step that may happen between any two turns of the driver's loop.

## What turned out not to hold, and exactly when it does

Each has a concrete input or run from boot, and a condition that holds for all inputs.

- The COW count can be too small. A fault in the space being cloned that falls between the clone's load
  of an entry and its count leaves two holders with count 1; the clone is published, and the next two
  faults let two live spaces write one page (`CowRace.TwoWriters`). An unmap between the count and the
  stores leaves two holders with count 1 as well, although the source was right when it was counted
  (`CowRace.LateUndercounts`). With any moves of other CPUs between load, count and stores, memory is in
  order afterwards if and only if, *at the moment the source is stored*, the source still holds the page
  as it was loaded, up to permission bits, or the page was private, its entry is gone and only COW
  entries name the page (`CowWindow.WindowIff`, `CowStale.CountedShareIff`; with nothing between count
  and stores the moment is the count, `CowStale.StaleShareIff`). In runs where no one rewrites the source
  in between, counts are exact (`CowLive.EveryRunCounts`). Process table and memory together guarantee
  that as long as no slot on a cloning or moving CPU is marked exiting and the moving CPU has loaded its
  CR3 (`CowJoint.JointCounts`); a marked slot can fork beside a running thread of its process
  (`ProcWitness.ForkNotAlone`).
- A fault can resolve wrongly, for clone does not take the lock its section holds: any clone of the entry
  between its reading the count and its store breaks the count (`CowFault.CloneBreaksPromote`). It may
  finish in place if and only if its entry is then the page's one COW entry or has been made private
  (`CowFault.StalePromoteIff`), and by a copy if and only if its entry is still a COW entry of the page
  (`CowFault.StaleCopyIff`).
- A CPU can run on a freed address space: it chooses a slot under the lock and loads CR3 after it
  (`ProcWitness.RunsOnFreedSpace`). Only while that load is due (`ProcRuns.LoadedLive`,
  `ProcRuns.FreesOnce`).
- A shootdown that returns true has not always flushed its targets (`TlbShootdown.FailsFromBoot`). It
  can be trusted from a state if and only if no shootdown interrupt is pending there and no handler is
  running that has not read the generation yet (`TlbShootdown.SafeIffSettled`). Such interrupts are
  left over by a timed-out call.
- An owner that exits while slots of its process are alive does not free the address space, and
  neither does anyone later (`ProcWitness.LeaksSpace`, `ProcRuns.LeakedForever`); the space is freed if
  and only if no such slot is left (`ProcRuns.ExitFreesOrOrphans`, `ProcRuns.PendingIsFreed`).
- The timer can starve a slot for ever (`ProcWitness.TimerStarves`). It reaches an eligible slot if and
  only if neither the current slot nor any eligible slot on the way is marked exiting
  (`ProcWaiting.TimerReachesIff`).
- A pipe does not always deliver what was written: the bytes leave the ring before they are copied out
  (`PipeRead.LosesByte`). A read loses them if and only if the user's range cannot be written, which
  the page tables, counts and free frames before the call decide (`PipeRead.ReadLosesIff`,
  `CowKernel.AddressSpaces.CopyToUser`).
- A program can overlap its own shared objects: nothing bounds the size of a position-independent one
  (`ExecLoader.OverlapExample`) or the place of a fixed one. It keeps clear of them if and only if it ends
  before their window, begins after the last of them or fits between two neighbours; a
  position-independent one only in the first way (`ExecLoader.ProgramClear`).
- A failed write to a regular file can change it, now or through a later gap
  (`RegularFile.GapShowsLostByte`, for every such byte `RegularFile.LostByteShows`). It never shows,
  whatever follows, if and only if it is refused before the copy or nothing of the user's buffer is
  accessible (`RegularFile.NeverShowsIff`, `RegularFile.UnchangedIff`, `RegularFile.TailZeroIff`).

## Model

| member | source | states |
|---|---|---|
| `CowSteps.ActionInv` | Kernel/CPU/Syscall.c:3467-3545 | every action keeps the invariant: slots lie in tables of their level, every entry names a frame of the right kind, at most one link or private entry per frame, COW count = live COW entries + decrements owed, dmabuf map count = entries, allocator and used frames disjoint |
| `CowSteps.HoldersMove` | Kernel/CPU/Syscall.c:3718-3735 | rewriting one entry moves that entry, and only it, between the sets of holders that counts are compared with |
| `CowSteps.SoleHolder` | Kernel/CPU/Syscall.c:5907-5921 | a COW entry whose frame counts at most 1 is its only holder, and nothing is owed for it |
| `CowSteps.OnlyOwnName` | Kernel/CPU/Syscall.c:3720-3734 | a private page is named by its one entry only |
| `CowSteps.ShareCowInv` | Kernel/CPU/Syscall.c:3718-3735 | sharing a page between parent and child (delta 1 if it was COW, 2 if private), when no one comes between the load and the stores, keeps the invariant |
| `CowSteps.BreakCopyInv` | Kernel/CPU/Syscall.c:5927-5943 | switching an entry to a fresh copy before the old frame's count is decremented keeps the invariant, the decrement being owed |
| `CowSteps.PromoteInv` | Kernel/CPU/Syscall.c:5915-5925 | making a sole COW page writable in place keeps the invariant |
| `CowSteps.SettleLastInv` | Kernel/CPU/Syscall.c:5942-5947 | paying the last owed decrement frees the frame and keeps the invariant |
| `CowRuns.RunInv` | Kernel/CPU/Syscall.c:3467-3545 | the invariant holds in every state that actions taken one after the other lead to |
| `CowRuns.WritableIsAlone` | Kernel/CPU/Syscall.c:3720-3734 | a writable private page is the only mapping of its frame in any space |
| `CowRuns.FreedUnnamed` | Kernel/CPU/Syscall.c:5939-5947 | a step frees a frame only when no entry names it any more and nothing is owed for it |
| `CowRuns.PoolConstant` | Kernel/CPU/Syscall.c:3422-3430 | frames only move between the allocator and tables and pages: none appears, none is lost |
| `CowRuns.PathUnique` | Kernel/CPU/Syscall.c:3547-3580 | two user addresses of a space never share a leaf entry |
| `CowRuns.Conservation` | Kernel/CPU/Syscall.c:3582-3674 | the allocated frames are exactly the tables under roots, the pages behind their entries, and the pages with a decrement owed |
| `CowRuns.SpacesExact` | Kernel/CPU/Syscall.c:3582-3674 | if the tables no entry names are a given set of roots, the allocated frames are exactly the tables and pages of the spaces with these roots, and the pages with a decrement owed |
| `CowRuns.RootsAfter` | Kernel/CPU/Syscall.c:3824-3877 | which tables come to be, and cease to be, named by no entry with each action |
| `CowRuns.LeafStays` | Kernel/CPU/Syscall.c:5885-5947 | away from the table an action writes, what every entry shows stays, COW resolution included |
| `CowRuns.Isolation` | Kernel/CPU/Syscall.c:5885-5947 | an action that touches no table of a space changes nothing that space sees at any address |
| `CowMachine.ActVirtual` | Kernel/CPU/Syscall.c:3690-3735 | an action that rewrites no source of a share in flight does to the memory with all late stores done what it does to the memory that is there |
| `CowMachine.ActRoots` | Kernel/CPU/Syscall.c:3582-3674 | what an action of any CPU does to the tables no entry names |
| `CowMachine.ActMInv` | Kernel/CPU/Syscall.c:5850-5948 | a fault, unmap, copy-out, teardown or program action of any CPU that rewrites no source of a share in flight keeps the machine's invariant |
| `CowShares.CountMInv` | Kernel/CPU/Syscall.c:3718-3731 | ref_add for a loaded entry keeps it: the count is right for the entries that are still to be stored |
| `CowShares.StoreSrcMInv` | Kernel/CPU/Syscall.c:3732-3732 | the store of the source entry keeps it |
| `CowShares.StoreDstMInv` | Kernel/CPU/Syscall.c:3733-3733 | the store of the destination entry keeps it |
| `CowShares.MoveInv` | Kernel/CPU/Syscall.c:3690-3735 | every move of every CPU that rewrites no source of a share in flight keeps the invariant, the books on live spaces and tables in hand included |
| `CowLive.RunMInv` | Kernel/CPU/Syscall.c:3690-3735 | the invariant in every state of every calm run from boot; a page on its first share has no holder but the two entries of the share until the source is stored |
| `CowLive.EveryRunCounts` | Kernel/CPU/Syscall.c:3467-3545 | in every state of every calm run from boot each page's COW count is the number of COW entries naming it, plus the decrements owed, plus the increments added and not yet stored |
| `CowLive.RunConserves` | Kernel/CPU/Syscall.c:3582-3877 | in every state of every calm run each frame the allocator began with is free, or a table or page of a space that is live, being built or being torn down, or a page with a decrement owed; never free and one of these |
| `CowLive.AtRest` | Kernel/CPU/Syscall.c:3582-3877 | when no CPU is building, tearing down or settling, the allocated frames are exactly the tables and pages of the live spaces |
| `CowLive.RunIsolation` | Kernel/CPU/Syscall.c:5850-5948 | over any stretch of a calm run whose moves touch no table of a space, whatever else is cloned, faulted, written, unmapped and freed, that space sees at every address what it saw |
| `CowLive.RunWritableAlone` | Kernel/CPU/Syscall.c:3720-3734 | in every state of every calm run a page behind a writable entry is named by no other entry |
| `CowStale.ShareFinishes` | Kernel/CPU/Syscall.c:3718-3735 | the count and both stores, one after the other, store what was loaded |
| `CowStale.UninterruptedShare` | Kernel/CPU/Syscall.c:3718-3735 | if the source still is what was loaded, they are the action of an uninterrupted clone |
| `CowStale.CountPending` | Kernel/CPU/Syscall.c:3724-3731 | whatever the source has become by the time of the count, memory is in order after it apart from the increments not stored |
| `CowStale.CountedShareIff` | Kernel/CPU/Syscall.c:3732-3733 | the two stores of a counted share leave the invariant true for some owners if and only if, when they are made, the source holds the page as it was loaded, or the page was private, its entry is gone and only COW entries name the page |
| `CowStale.StaleShareIff` | Kernel/CPU/Syscall.c:3690-3735 | the same for a share whose count and stores follow each other: the condition is that of the source at the count |
| `CowWindow.ShadowMove` | Kernel/CPU/Syscall.c:3690-3735 | whatever move another CPU makes, on the source of the share too, the world without this one share stays in order beside it |
| `CowWindow.WindowIff` | Kernel/CPU/Syscall.c:3690-3735 | with any moves of other CPUs between the load, the count and the stores of a share, and any number of other shares in flight, memory is in order after the stores for some owners if and only if the source fits when it is stored |
| `CowFault.UninterruptedFault` | Kernel/CPU/Syscall.c:5907-5943 | a fault that finishes at once takes the single action of the model |
| `CowFault.StalePromoteIff` | Kernel/CPU/Syscall.c:5914-5921 | a fault that has decided to make its entry writable in place leaves memory in order, for some owners, if and only if its entry is then the one COW entry of a page with count 1, or private already |
| `CowFault.CloneBreaksPromote` | Kernel/CPU/Syscall.c:5914-5921 | a clone of the entry between the decision and the store always breaks it |
| `CowFault.StaleCopyIff` | Kernel/CPU/Syscall.c:5927-5943 | a fault that stores a copy leaves memory in order, for some owners, if and only if its entry still is a COW entry of the page |
| `CowRace.Undercounts` | Kernel/CPU/Syscall.c:3690-3735 | a run from boot to a page with two COW entries and count 1 |
| `CowRace.TwoWriters` | Kernel/CPU/Syscall.c:5907-5925 | a run from boot, necessarily not calm, to two live spaces each with a path to a writable entry for one page |
| `CowRace.LateUndercounts` | Kernel/CPU/Syscall.c:3724-3733 | a run from boot in which the source fits when it is counted, and which ends with two COW entries and count 1 |
| `CowDispatch.DispatchCalm` | Kernel/CPU/Syscall.c:7960-7976 | in every run of the process table a move that keeps to the space its CPU runs on and the tables in its hands is calm, as long as no cloning slot and not the moving slot is marked exiting and the moving CPU has its CR3 loaded |
| `CowJoint.TreeStays` | Kernel/CPU/Syscall.c:3676-3877 | an action on other tables leaves every table in the tree of its space |
| `CowJoint.JointRunInv` | Kernel/CPU/Syscall.c:7940-8032 | the invariants of process table and memory, and that every share in flight belongs to a fork of the space in its CPU's CR3, in every state of every orderly joint run from boot |
| `CowJoint.JointCounts` | Kernel/CPU/Syscall.c:7940-8032 | in every such run every memory move is calm and every page's count is its COW entries, the decrements owed and the increments not stored |
| `CowEffects.GrowsView` | Kernel/CPU/Syscall.c:3676-3877 | whatever fork's walk has done so far, every space that existed sees what it saw |
| `CowEffects.RollbackExact` | Kernel/CPU/Syscall.c:3688-3746 | after a failed fork the allocated frames are exactly those before it: none kept, none freed twice |
| `CowEffects.RollbackCounts` | Kernel/CPU/Syscall.c:5915-5925 | after a failed fork a downgraded page has count 1 and can be made writable in place; a page shared before keeps its count |
| `CowWalks.FreeEmptied` | Kernel/CPU/Syscall.c:3582-3674 | when the walk has dropped every entry of a table, freeing it completes the teardown of its tree |
| `CowWalks.TeardownExact` | Kernel/CPU/Syscall.c:3582-3674 | after teardown of a space a frame is allocated if and only if it is another space's table, a page another space names, or a page with a decrement owed |
| `CowWalks.FailUndone` | Kernel/CPU/Syscall.c:3688-3746 | freeing a half-built clone undoes it: same frames, same roots, same free set |
| `CowWalks.MirrorLeaf` | Kernel/CPU/Syscall.c:3690-3746 | each way of copying a leaf entry (null frame, dmabuf, shared COW, read-only copy) extends the mirrored part of the clone by one entry |
| `CowWalks.MirrorLink` | Kernel/CPU/Syscall.c:3763-3786 | linking a cloned subtree extends the mirrored part of the clone by one entry |
| `CowTable.TracksUnique` | Kernel/CPU/Syscall.c:3447-3465 | the reference table stands for one map from frames to counts |
| `CowTable.FullTable` | Kernel/CPU/Syscall.c:3457-3465 | the table has no free slot if and only if its map has as many frames as there are slots |
| `CowTable.CowRefFind` | Kernel/CPU/Syscall.c:3447-3455 | finds the slot of a frame exactly when the map has it |
| `CowTable.CowRefAlloc` | Kernel/CPU/Syscall.c:3457-3465 | finds an unused slot exactly when the table is not full |
| `CowKernel.AddressSpaces.constructor` | Kernel/CPU/Syscall.c:6379-6420 | at boot there is no table, no space, no count and nothing owed |
| `CowKernel.AddressSpaces.NothingLeftOver` | Kernel/CPU/Syscall.c:3582-3877 | between calls the allocated frames are exactly the tables and pages of the live spaces |
| `CowKernel.AddressSpaces.CowRefAdd` | Kernel/CPU/Syscall.c:3467-3500 | adds to the count of a frame; refuses exactly for frame 0, delta 0, a count that would pass 32 bits, or a full table, and then changes nothing |
| `CowKernel.AddressSpaces.CowRefSub` | Kernel/CPU/Syscall.c:3502-3533 | subtracts one, removes the frame at the last one and says so; fails exactly for a frame without a count |
| `CowKernel.AddressSpaces.CowRefGet` | Kernel/CPU/Syscall.c:3535-3545 | the count, 0 for a frame outside the table |
| `CowKernel.AddressSpaces.FreeTree` | Kernel/CPU/Syscall.c:3582-3674 | frees the tree of a root at any level: its frames only are given back, every other tree keeps every entry, nothing is left owed |
| `CowKernel.AddressSpaces.FreeEntry` | Kernel/CPU/Syscall.c:3588-3613 | one entry of the free walk, whatever its use |
| `CowKernel.AddressSpaces.CloneTree` | Kernel/CPU/Syscall.c:3752-3822 | a cloned table shows what its source shows on every path, or the call is undone, and then some state it went through had no free frame, no room to count, a device page or a large page |
| `CowKernel.AddressSpaces.CloneInto` | Kernel/CPU/Syscall.c:3676-3822 | the same for the loop over one table, with the rollback of everything built |
| `CowKernel.AddressSpaces.CloneSlot` | Kernel/CPU/Syscall.c:3763-3786 | one slot of that loop |
| `CowKernel.AddressSpaces.CloneEntry` | Kernel/CPU/Syscall.c:3690-3746 | one leaf entry of that loop |
| `CowKernel.AddressSpaces.CreateKernelMirrored` | Kernel/CPU/Syscall.c:3824-3843 | a new space whose kernel half is the source's, except the slot that maps itself; fails exactly for source 0 and without a free frame; no table is left over |
| `CowKernel.CopyKernelHalf` | Kernel/CPU/Syscall.c:3833-3841 | the kernel half is shared entry by entry except the recursive slot, and no other root's changes |
| `CowKernel.AddressSpaces.CloneAddressSpace` | Kernel/CPU/Syscall.c:3845-3877 | fork: the child's view and the parent's both equal the parent's old view at every address, every other space is unchanged, the kernel half is shared, and the child is the one space more; or the fork is undone and the spaces are those before; no table is left over |
| `CowKernel.AddressSpaces.FreeAddressSpace` | Kernel/CPU/Syscall.c:3658-3674 | the frames left are exactly the other spaces' tables, the pages they name and the pages with a decrement owed; the space is the one space less, and no table is left over |
| `CowKernel.AddressSpaces.MakeWritable` | Kernel/CPU/Syscall.c:5907-5947 | makes a COW page writable, in place or by a copy, with no space seeing a difference and no table more or less; fails exactly when it is shared and no frame is free |
| `CowKernel.AddressSpaces.ResolveCowFault` | Kernel/CPU/Syscall.c:5850-5948 | for an address below the 52-bit frame mask, resolves exactly the present write faults at a user address of the process's own space whose page is writable or can be made so; the entry the address leads to is then a writable user entry that shares nothing, no view has changed and the spaces are the same; a failure changes nothing |
| `CowKernel.FaultPage` | Kernel/CPU/Syscall.c:5858-5858 | the page that holds the fault address, for every address below the 52-bit frame mask |
| `CowKernel.AddressSpaces.WritablePage` | Kernel/CPU/Syscall.c:331-407 | the page becomes writable exactly when it is a user page that is writable or can be made so |
| `CowKernel.AddressSpaces.CopyToUser` | Kernel/CPU/Syscall.c:316-421 | memcpy on the abstract space: exactly the first `copied` bytes change, across pages and COW breaks, no other space changes, nothing is left owed, the spaces are the same; all bytes are copied if and only if, as the call finds memory, every page of the range is in bounds and writable or COW and the free frames suffice for the copies |
| `CowKernel.AddressSpaces.CopyPage` | Kernel/CPU/Syscall.c:331-415 | one page of it: the copied range grows by the chunk and what remains is exactly as possible as before, or nothing changes and the rest is not possible |
| `CowKernel.AddressSpaces.Unmap` | Kernel/CPU/Syscall.c:8512-8574 | succeeds exactly for a page-aligned base and a length of 1 byte to 64 MiB inside the mapping area of which every byte is accessible; then no byte of the range is mapped, no page past the one that holds its last byte and no other space is touched, and the spaces are the same; otherwise nothing changes |
| `CowKernel.UnmapArgsIff` | Kernel/CPU/Syscall.c:8514-8531 | the argument checks, 64-bit wrap and rounding included, say just that: an aligned window of at most 64 MiB inside the mapping area |
| `UserMemory.RangeIff` | Kernel/CPU/Syscall.c:287-300 | the range check with its wrapping end admits exactly the non-empty ranges whose every byte is a user address |
| `UserMemory.AccessibleIff` | Kernel/CPU/Syscall.c:3552-3580 | an address is accessible exactly when the three upper entries on its path are present user links, none of them a large page, and the leaf a present user entry |
| `UserMemory.PathDigits` | Kernel/CPU/Syscall.c:3552-3579 | the four indices are the base-512 digits of the page number |
| `UserMemory.PathInjective` | Kernel/CPU/Syscall.c:3552-3579 | different user pages have different table-index paths |
| `UserMemory.StoreView` | Kernel/CPU/Syscall.c:409-415 | a store through an entry is seen on the paths that end in that entry and on no other path of any table |
| `UserMemory.UserWriteIsolated` | Kernel/CPU/Syscall.c:3720-3734 | a write by a program changes exactly those bytes of its own view and nothing of any other space's |
| `UserMemory.CopiedChunk` | Kernel/CPU/Syscall.c:409-415 | one more chunk of a copy extends the copied range by exactly its bytes |
| `UserMemory.InvisibleAction` | Kernel/CPU/Syscall.c:5907-5947 | resolving COW and paying owed decrements is invisible in every space |
| `UserMemory.DropView` | Kernel/CPU/Syscall.c:8540-8567 | dropping an entry removes what the paths through it show and nothing else |
| `UserMemory.CopiesStep` | Kernel/CPU/Syscall.c:331-407 | making one page of a range writable takes exactly its part of the free frames and counts the rest of the range needs |
| `ProcSafety.StepInv` | Kernel/CPU/Syscall.c:5393-5460 | every step of every CPU keeps the invariant of the process table |
| `ProcSafety.PickNextOk` | Kernel/CPU/Syscall.c:5718-5745 | what the scan picks may run on this CPU without a conflict with any other |
| `ProcSafety.PickNextSameOwnerOk` | Kernel/CPU/Syscall.c:5747-5770 | what the scan among the slots of one owner picks may run on this CPU without a conflict, and for a slot with a space never leaves the owner |
| `ProcPicks.PickNextIs` | Kernel/CPU/Syscall.c:5718-5745 | the pick is the nearest other slot in cyclic order that this CPU may run; the current slot, or none if that has no space, exactly when there is no such slot |
| `ProcPicks.PickFirstIs` | Kernel/CPU/Syscall.c:5737-5745 | without a current slot the pick is the lowest slot that can run, and none exactly when there is none |
| `ProcPicks.PickPeerIs` | Kernel/CPU/Syscall.c:5747-5770 | the pick among one owner is the nearest other slot of that owner that can run and is not exiting; the current slot if there is none |
| `ProcPicks.PickProgress` | Kernel/CPU/Syscall.c:5718-5734 | a pick is the waiting slot or strictly nearer to it in cyclic order |
| `ProcPicks.FirstIdleIs` | Kernel/CPU/Syscall.c:7104-7131 | the idle scan finds the lowest unclaimed slot that can run, is not exiting and is not init, and none exactly when there is none |
| `ProcPicks.FirstUnusedIs` | Kernel/CPU/Syscall.c:5382-5391 | the allocation scan finds the lowest unused slot, and none exactly when the table is full |
| `ProcPicks.PeersCanRun` | Kernel/CPU/Syscall.c:5688-5716 | in every state the invariant allows, no other CPU keeps a live slot of a process from the CPU that runs the process |
| `ProcPicks.YieldIs` | Kernel/CPU/Syscall.c:8177-8191 | a yield by the same-owner route goes to the nearest other live slot of the process, stays exactly when there is none, never leaves the process and changes nothing but this CPU's current slot and the CR3 load it owes |
| `ProcPicks.ReschedIs` | Kernel/CPU/Syscall.c:9368-9402 | a call that returns with a reschedule due goes to the nearest slot that can run; without one nothing changes |
| `ProcPicks.TimerIs` | Kernel/CPU/Syscall.c:7241-7277 | the timer goes to the nearest slot that can run, but never from an exiting slot or to one |
| `ProcPicks.IdleIs` | Kernel/CPU/Syscall.c:7080-7190 | an idle CPU takes the lowest slot it may take and claims it, so that no idle CPU may take it again; without one nothing changes |
| `ProcPicks.ExitIs` | Kernel/CPU/Syscall.c:9341-9402 | an exiting slot is wiped and its CPU goes to the lowest slot that can run or to none because there is none; its space is left to be freed exactly when it owned it and no slot of the process is left |
| `ProcPicks.ForkCreates` | Kernel/CPU/Syscall.c:7976-8032 | fork adds one process in the lowest unused slot and changes no other: a pid above every pid and owner in use, its own owner, the caller's process as parent, alone in the clone and owning it; a full table gives the clone back |
| `ProcPicks.ThreadCreates` | Kernel/CPU/Syscall.c:8972-9060 | thread_create adds one thread in the lowest unused slot: a new pid, the owner, parent and space of the caller, not owning the space; nothing changes when the table is full |
| `ProcPicks.ExecReplaces` | Kernel/CPU/Syscall.c:8110-8175 | exec keeps pid and parent, makes the caller its own owner with no other slot of that owner, alone in the new space and owning it, and leaves the old space to be freed exactly when it owned that |
| `ProcSafety.ForkCommitInv` | Kernel/CPU/Syscall.c:7976-8030 | installing the child, after the unlocked clone, keeps the invariant |
| `ProcSafety.ExecCommitInv` | Kernel/CPU/Syscall.c:8110-8175 | installing the new image and freeing the old one keeps the invariant |
| `ProcSafety.ThreadInv` | Kernel/CPU/Syscall.c:9001-9058 | creating a thread, which shares the space without owning it, keeps the invariant |
| `ProcSafety.ExitInv` | Kernel/CPU/Syscall.c:9341-9402 | clearing an exiting slot, switching away and freeing the space if it was the last keeps the invariant |
| `ProcSafety.PreemptInv` | Kernel/CPU/Syscall.c:7192-7287 | a timer preemption keeps the invariant |
| `ProcSafety.IdleInv` | Kernel/CPU/Syscall.c:7080-7190 | a dispatch from idle keeps the invariant |
| `ProcRuns.RunInv` | Kernel/CPU/Syscall.c:5393-5460 | the invariant holds in every state of every run from boot |
| `ProcRuns.DispatchSafety` | Kernel/CPU/Syscall.c:5688-5716 | in every state of every run a CPU's current slot is in use, no slot is current on two CPUs, and no two CPUs run slots of one owner unless one is exiting |
| `ProcRuns.ForkAlone` | Kernel/CPU/Syscall.c:5688-5716 | while a fork clones, no other CPU that runs a slot has its space loaded, unless one of the two slots is marked exiting or that CPU has a load due |
| `ProcRuns.ForkKept` | Kernel/CPU/Syscall.c:9343-9446 | the space a fork clones is not one that any CPU has left to free |
| `ProcRuns.LoadedLive` | Kernel/CPU/Syscall.c:7273-7281 | in every state of every run a CPU that runs a slot and has no load due has a live space in CR3 |
| `ProcRuns.FreesOnce` | Kernel/CPU/Syscall.c:9436-9446 | a space that a step frees was live, and afterwards no slot names it, no CPU still has to free it, and no CPU runs a slot on it unless a load is due there |
| `ProcRuns.WhatIsFreed` | Kernel/CPU/Syscall.c:9343-9446 | which steps free a space, and which one: the clone of a fork without a slot, the image of an aborted exec, and the space a CPU has left to free |
| `ProcRuns.ExitFreesOrOrphans` | Kernel/CPU/Syscall.c:9343-9365 | the exit of a space's owner leaves it to its CPU to free if no slot of the process is alive, and otherwise leaves it live with no owner |
| `ProcRuns.PendingIsFreed` | Kernel/CPU/Syscall.c:9436-9446 | what is left to a CPU to free it does free, after the load it has left to do |
| `ProcRuns.OrphanForever` | Kernel/CPU/Syscall.c:9343-9365 | whatever step is taken, a space without an owner stays live and unowned |
| `ProcRuns.LeakedForever` | Kernel/CPU/Syscall.c:9343-9365 | over a whole run a space that has lost its owner is never freed |
| `ProcWaiting.BoundedWaiting` | Kernel/CPU/Syscall.c:5718-5734 | in every run a slot that stays eligible becomes current within SYSCALL_MAX_PROCS - 1 committed picks of a CPU whose current slots survive, however other slots come and go on other CPUs |
| `ProcWaiting.TimerReaches` | Kernel/CPU/Syscall.c:7241-7271 | with no exiting slot on the way the timer alone reaches an eligible slot in at most as many ticks as it is slots ahead |
| `ProcWaiting.TimerReachesIff` | Kernel/CPU/Syscall.c:7241-7271 | the timer alone ever brings an eligible slot onto the CPU if and only if it is there, or neither the current slot nor any eligible slot on the way to it is marked exiting |
| `ProcWitness.RunsOnFreedSpace` | Kernel/CPU/Syscall.c:7273-7281 | a run from boot to a CPU that runs a slot on a space that has been freed, its load being due |
| `ProcWitness.LeaksSpace` | Kernel/CPU/Syscall.c:9343-9365 | a run from boot to a space no slot owns and no step ever frees |
| `ProcWitness.TimerStarves` | Kernel/CPU/Syscall.c:7241-7271 | a run from boot to a state from which no number of ticks reaches an eligible slot |
| `ProcWitness.ForkNotAlone` | Kernel/CPU/Syscall.c:7940-7975 | a run from boot to a fork of a space another CPU runs a slot on that is not exiting, the forking slot being marked |
| `Scheduler.ProcessTable.constructor` | Kernel/CPU/Syscall.c:6379-6420 | the table at boot |
| `Scheduler.ProcessTable.ProcAlloc` | Kernel/CPU/Syscall.c:5382-5391 | the lowest unused slot, and none exactly when the table is full |
| `Scheduler.ProcessTable.IsOnOtherCpu` | Kernel/CPU/Syscall.c:5688-5716 | whether some other CPU runs this slot or a live slot of its owner |
| `Scheduler.ProcessTable.OwnerHasOtherLive` | Kernel/CPU/Syscall.c:6304-6322 | whether another slot of the owner is alive |
| `Scheduler.ProcessTable.OwnerHasOtherLiveNonThread` | Kernel/CPU/Syscall.c:6324-6343 | the same, threads not counted |
| `Scheduler.ProcessTable.PickNextSlot` | Kernel/CPU/Syscall.c:5718-5745 | the loop picks the nearest other slot that can run (without a current slot: the lowest), falling back as `PickNextIs` says |
| `Scheduler.ProcessTable.PickPeerSlot` | Kernel/CPU/Syscall.c:5747-5770 | the loop picks the nearest other live slot of the owner that can run, and the current slot only if there is none |
| `Scheduler.ProcessTable.HasOtherOwnerPeer` | Kernel/CPU/Syscall.c:5772-5792 | whether another slot of the owner is in use with a space and not exiting |
| `Scheduler.ProcessTable.Yield` | Kernel/CPU/Syscall.c:8177-8191 | asks for a reschedule, by the same-owner route exactly when the process has another live slot or the route was already asked for |
| `Scheduler.ProcessTable.ScanIdle` | Kernel/CPU/Syscall.c:7104-7131 | the idle scan is `FirstIdle` |
| `Scheduler.ProcessTable.BeginFork` | Kernel/CPU/Syscall.c:7940-7975 | fork's first critical section: starts exactly when the step is enabled |
| `Scheduler.ProcessTable.ForkInstall` | Kernel/CPU/Syscall.c:7976-8032 | fork's second critical section is the fork step; the child's pid, or 0 without a slot |
| `Scheduler.ProcessTable.BeginExec` | Kernel/CPU/Syscall.c:8041-8058 | exec's first critical section refuses exactly a caller with other live slots |
| `Scheduler.ProcessTable.ExecInstall` | Kernel/CPU/Syscall.c:8110-8175 | exec's second critical section is the exec step |
| `Scheduler.ProcessTable.CreateThread` | Kernel/CPU/Syscall.c:8972-9060 | thread_create is the thread step |
| `Scheduler.ProcessTable.TerminateOwner` | Kernel/CPU/Syscall.c:6109-6145 | marks exactly the slots of the owner as exiting |
| `Scheduler.ProcessTable.HandleTimer` | Kernel/CPU/Syscall.c:7192-7287 | the timer path is the preemption step when one is due |
| `Scheduler.ProcessTable.PreemptCurrent` | Kernel/CPU/Syscall.c:7241-7277 | the locked part of the timer path: a switch exactly when the current slot changes |
| `Scheduler.ProcessTable.DispatchFromIdle` | Kernel/CPU/Syscall.c:7080-7190 | the idle path is the dispatch step, and succeeds exactly when a candidate exists and the CPU runs nothing |
| `Scheduler.ProcessTable.PostSection` | Kernel/CPU/Syscall.c:9271-9434 | the critical section of the post-syscall path is the post step: exit, reschedule, or stay |
| `Scheduler.ProcessTable.ExitCurrent` | Kernel/CPU/Syscall.c:9341-9402 | the exit branch of it |
| `Scheduler.ProcessTable.LoadNext` | Kernel/CPU/Syscall.c:9435-9436 | the CR3 load after the lock is dropped is the load step |
| `Scheduler.ProcessTable.FreeOld` | Kernel/CPU/Syscall.c:9445-9446 | the free after it is the free step |
| `TlbShootdown.StepInv` | Kernel/CPU/SMP.c:1103-1160 | every step of requester, device and handlers keeps the protocol's invariant |
| `TlbShootdown.HandledOk` | Kernel/CPU/SMP.c:220-242 | a handler that has read the current generation has read the current request, and flushes all translations or the page that holds the requested address before it acknowledges |
| `TlbShootdown.AckBound` | Kernel/CPU/SMP.c:1103-1127 | in every run no acknowledgement exceeds the current generation |
| `TlbShootdown.GenerationsIncrease` | Kernel/CPU/SMP.c:1103-1104 | of two requests the later has the larger generation |
| `TlbShootdown.CallDated` | Kernel/CPU/SMP.c:1103-1107 | the specification's record of when a call found the lock and published its request is that of the run |
| `TlbShootdown.SettledIsSafe` | Kernel/CPU/SMP.c:1103-1160 | a call that starts settled and returns true has had every target, after publication, flush all translations or the page that holds the requested address |
| `TlbShootdown.UnsettledIsUnsafe` | Kernel/CPU/SMP.c:220-242 | from any state with an unsettled interrupt of a CPU, any call with that CPU among its targets may return true without its flush, all other targets answering properly |
| `TlbShootdown.SafeIffSettled` | Kernel/CPU/SMP.c:1069-1160 | the calls from a state, and already those to all other CPUs, can be trusted if and only if no interrupt is unsettled in it |
| `TlbShootdown.FailsFromBoot` | Kernel/CPU/SMP.c:1103-1160 | a run from boot with two CPUs in which a call returns true and its target has not flushed |
| `ExecLoader.ExtentStep` | Kernel/CPU/Syscall.c:4260-4301 | the lowest and highest page cover every byte of every segment, and are page-aligned and ordered |
| `ExecLoader.ExtentTight` | Kernel/CPU/Syscall.c:4260-4301 | they are the tightest: some segment begins in the first page and some segment ends in the last |
| `ExecLoader.SegmentFitsIff` | Kernel/CPU/Syscall.c:4275-4296 | a segment with bytes passes the wrap checks exactly when it ends a page before the top of the address space |
| `ExecLoader.FindExtent` | Kernel/CPU/Syscall.c:4260-4307 | finds them exactly when some segment has bytes and none wraps around |
| `ExecLoader.LoadSegments` | Kernel/CPU/Syscall.c:4141-4189 | accepts exactly when every segment lands in user space without wrapping |
| `ExecLoader.SegmentLoadsIff` | Kernel/CPU/Syscall.c:4141-4189 | the chain of wrap, canonical and user checks passes exactly when every byte of the segment lands in user space |
| `ExecLoader.PlaceShared` | Kernel/CPU/Syscall.c:4352-4385 | an aligned place in the window at or after the cursor; from an aligned cursor, exactly when the object fits |
| `ExecLoader.PlaceMain` | Kernel/CPU/Syscall.c:4309-4350 | a fixed image keeps its addresses and is taken exactly when its entry is in user space; a position-independent one starts at its base and is taken exactly when it and its entry land in user space |
| `ExecLoader.ModulePlaced` | Kernel/CPU/Syscall.c:4387-4400 | a loaded module holds its whole image, has its file's path, soname and every DT_NEEDED entry in order, and its entry where the bias puts it; a shared object lies in the window between the old and the new cursor |
| `ExecLoader.LoadModule` | Kernel/CPU/Syscall.c:4191-4396 | adds one module, which `ModulePlaced` describes, exactly when there is room for one more, the file is there and it loads; otherwise none |
| `ExecLoader.NeededPath` | Kernel/CPU/Syscall.c:4055-4078 | an absolute path shorter than the limit, the name itself or the name under /lib; none exactly when that would be too long |
| `ExecLoader.IsLoaded` | Kernel/CPU/Syscall.c:5156-5165 | whether a loaded module has the path or the non-empty soname |
| `ExecLoader.MeetEntry` | Kernel/CPU/Syscall.c:5138-5175 | one DT_NEEDED entry is met, or cannot be |
| `ExecLoader.LoadProgram` | Kernel/CPU/Syscall.c:5131-5177 | terminates on any graph of needs; on success every DT_NEEDED entry of every loaded file is provided by a loaded one, by path or soname; each module is the image of its file with its entry at bias + e_entry, paths are distinct, every module but the first is there for an entry of an earlier one that nothing loaded before it provides, shared objects are aligned, in the window and in order; on failure the program itself does not load or a loaded module has an entry that cannot be met |
| `ExecLoader.SharedDisjoint` | Kernel/CPU/Syscall.c:4375-4381 | the ranges of two shared objects do not overlap |
| `ExecLoader.Reachable` | Kernel/CPU/Syscall.c:5137-5177 | a chain of needs leads from the program to every loaded module |
| `ExecLoader.ProgramClear` | Kernel/CPU/Syscall.c:4309-4385 | a program, fixed or position-independent, is apart from all its shared objects if and only if it ends before their window, begins after the last or fits between two neighbours; a position-independent one cannot do the last two |
| `ExecLoader.OverlapExample` | Kernel/CPU/Syscall.c:4323-4341 | a program and library that load and overlap |
| `InitialStack.PushStrings` | Kernel/CPU/Syscall.c:637-662 | copies the strings below the stack top, the last first, exactly when they fit |
| `InitialStack.PushWords` | Kernel/CPU/Syscall.c:680-699 | the same for a vector of words |
| `InitialStack.PushVector` | Kernel/CPU/Syscall.c:664-704 | argc, argv vector, NULL, envp vector, NULL and the pad word, in this order upwards |
| `InitialStack.CheckArgs` | Kernel/CPU/Syscall.c:611-632 | accepts exactly argument lists within the limits, without an empty argument, and with a default for an empty list |
| `InitialStack.CopyStrings` | Kernel/CPU/Syscall.c:637-662 | the argument strings directly below the environment strings |
| `InitialStack.BuildInitialStack` | Kernel/CPU/Syscall.c:604-708 | succeeds exactly when the arguments are good and everything fits; then memory is the stated image, and read back it is the psABI stack of the caller's argv, or of the path alone when argv is empty, and of envp |
| `InitialStack.DecodeEncode` | Kernel/CPU/Syscall.c:680-704 | a stored word reads back |
| `InitialStack.ImageIsAbi` | Kernel/CPU/Syscall.c:604-708 | read back from memory, the image is the stack the psABI asks for: 16-byte aligned, vectors in order, each entry leading to an intact copy of its string, strings apart from each other and from the words |
| `InitialStack.ImageElsewhere` | Kernel/CPU/Syscall.c:604-708 | no byte outside the new part of the stack changes |
| `Rings.WindowPush` | Kernel/CPU/Syscall.c:2656-2660 | storing at the tail appends to the sequence the ring stands for |
| `Rings.WindowPop` | Kernel/CPU/Syscall.c:2413-2417 | advancing the head removes its first element |
| `Rings.WindowTurn` | Kernel/CPU/Syscall.c:5617-5625 | overwriting the oldest cell of a full ring drops the first element and appends |
| `Rings.Pipe.Write` | Kernel/CPU/Syscall.c:2634-2665 | appends what fits, in order; refuses exactly without a reader |
| `Rings.Pipe.Take` | Kernel/CPU/Syscall.c:2411-2418 | removes the oldest bytes in order |
| `PipeRead.ReadPipe` | Kernel/CPU/Syscall.c:2393-2424 | the read call with the copy-out after it: the oldest bytes leave the pipe in order and arrive in the reader's memory if and only if the range can be written when the call is made |
| `PipeRead.ReadLosesIff` | Kernel/CPU/Syscall.c:2411-2424 | a read loses bytes if and only if there were some to take and the user's range cannot be written |
| `PipeRead.LosesByte` | Kernel/CPU/Syscall.c:2411-2424 | a byte written to a pipe and read to an unmapped address is nowhere |
| `Rings.CaptureRing.Push` | Kernel/CPU/Syscall.c:5612-5626 | the ring holds the most recent bytes up to its capacity; nothing else is lost |
| `Rings.CaptureRing.Pop` | Kernel/CPU/Syscall.c:5628-5648 | hands out the next bytes of the captured stream in order, across the reset of an emptied ring |
| `RegularFile.OverlayReads` | Kernel/CPU/Syscall.c:2673-2711 | after a write what was written reads back, a gap reads as zero, all else is kept |
| `RegularFile.WriteOverlays` | Kernel/CPU/Syscall.c:2673-2711 | a complete write overlays the file when the buffer behind its end is zero, and keeps that zero |
| `RegularFile.PartialAt` | Kernel/CPU/Syscall.c:2700-2704 | every byte of the buffer after a write of which only part was delivered |
| `RegularFile.UnchangedIff` | Kernel/CPU/Syscall.c:2700-2704 | a failed write leaves the file's bytes alone, whatever the user's bytes are, if and only if it is refused before the copy, nothing is accessible or the cursor is at or past the end |
| `RegularFile.TailZeroIff` | Kernel/CPU/Syscall.c:2680-2704 | a failed write leaves the buffer past the end zero if and only if it is refused before the copy, nothing is accessible or what is accessible ends inside the file |
| `RegularFile.HarmlessIff` | Kernel/CPU/Syscall.c:2673-2711 | a failed write changes nothing now or later if and only if it is refused before the copy or nothing is accessible |
| `RegularFile.LostByteShows` | Kernel/CPU/Syscall.c:2673-2781 | every byte a failed write leaves past the end shows after a seek behind it and a write of one byte |
| `RegularFile.NeverShowsIff` | Kernel/CPU/Syscall.c:2673-2781 | over every later history of reads, writes and seeks a failed write never shows, whatever its bytes, if and only if it is refused before the copy or nothing is accessible |
| `RegularFile.GapShowsLostByte` | Kernel/CPU/Syscall.c:2673-2711 | a failed write whose byte shows in the gap before a later write |
| `RegularFile.HistoryMeans` | Kernel/CPU/Syscall.c:2433-2781 | over any history of reads, writes and seeks without such a failure, the file is the text that overlaying the complete writes gives, and every call returns what that text says: each read the bytes at the cursor, as many as are asked for and left |
| `RegularFile.StepAnswers` | Kernel/CPU/Syscall.c:2433-2781 | the result of every read, write and seek, and the bytes of every read, from the text, cursor and mode alone; a seek by 0 from the end gives the size and from the cursor the cursor |
| `RegularFile.FileDesc.constructor` | Kernel/CPU/Syscall.c:2061-2077 | the descriptor starts with the file's bytes, or none when truncating, at cursor 0 |
| `RegularFile.FileDesc.Open` | Kernel/CPU/Syscall.c:2025-2077 | refuses exactly without a volume, for a missing file not to be created and for a writable file larger than a block; otherwise the descriptor is the file's |
| `RegularFile.FileDesc.Read` | Kernel/CPU/Syscall.c:2426-2449 | delivers exactly the file's bytes from the cursor on, as many as are asked for and left, and moves the cursor by them; or fails, moving nothing, exactly when reading is not allowed or the copy faults |
| `RegularFile.FileDesc.Write` | Kernel/CPU/Syscall.c:2673-2711 | the exact state and result of a write, for every length, limit, allocation failure and point where the user's buffer stops being accessible; what it returns follows from the text and the limit, up to the allocator's answer |
| `RegularFile.FileDesc.Seek` | Kernel/CPU/Syscall.c:2739-2781 | moves from the start, the cursor or the end exactly to the places from 0 to the limit, which is the maximal size of a writable file and the end of any other; limit - base never wraps |
| `RegularFile.FileDesc.Close` | Kernel/CPU/Syscall.c:2213-2255 | a written file's bytes reach the volume exactly, or the call fails for a stated reason; an unwritten one leaves the volume alone |
| `PathName.SplitJoin` | Kernel/CPU/Syscall.c:877-894 | splitting a joined path returns its components |
| `PathName.FoldNames` | Kernel/CPU/Syscall.c:868-871 | plain components are entered one by one |
| `PathName.ResolveConcat` | Kernel/CPU/Syscall.c:842-872 | what follows a slash is resolved from where the path before it leads |
| `PathName.DotIsNeutral` | Kernel/CPU/Syscall.c:859-860 | a "." anywhere in a path changes nothing |
| `PathName.UpUndoesName` | Kernel/CPU/Syscall.c:861-871 | a name followed by ".." anywhere in a path changes nothing, unless the stack had no room for the name, which fails |
| `PathName.UpDropsLast` | Kernel/CPU/Syscall.c:861-866 | ".." drops the last component, and stays at the root |
| `PathName.NormalForm` | Kernel/CPU/Syscall.c:831-898 | a result is "/" and non-empty components, none "." or "..", that are the stack fold of the input's components |
| `PathName.Idempotent` | Kernel/CPU/Syscall.c:831-898 | normalising a result is the identity |
| `PathName.Components` | Kernel/CPU/Syscall.c:836-872 | the loop computes the bounded stack fold |
| `PathName.Normalize` | Kernel/CPU/Syscall.c:831-898 | the whole function, failures included |
| `E1000Receive.ArrivalOrder` | Kernel/Device/E1000.c:281-306 | accepted frames are arrived frames at strictly increasing positions, and every position that was queued is among them |
| `E1000Receive.DoneClean` | Kernel/Device/E1000.c:308-316 | clearing the next descriptor keeps the done bits exact |
| `E1000Receive.Receiver.constructor` | Kernel/Device/E1000.c:166-178 | the programmed ring: RDT is one behind the next descriptor to clean, no done bit is set |
| `E1000Receive.Receiver.DeviceOwned` | Kernel/Device/E1000.c:269-279 | descriptors the device owns have their done bit clear |
| `E1000Receive.Receiver.Counters` | Kernel/Device/E1000.c:285-306 | rx_packets + rx_dropped = descriptors cleaned, rx_packets = frames read + queue depth |
| `E1000Receive.Receiver.DeviceReceive` | Kernel/Device/E1000.c:166-178 | the device fills the descriptor at its head exactly when it owns one |
| `E1000Receive.Receiver.Enqueue` | Kernel/Device/E1000.c:281-306 | a frame is queued exactly when it is good and there is room, else counted as dropped for a reason |
| `E1000Receive.Receiver.CleanOne` | Kernel/Device/E1000.c:275-318 | one turn of the poll keeps every law of ring, queue and counters |
| `E1000Receive.Receiver.PollRx` | Kernel/Device/E1000.c:269-328 | the poll, with frames arriving between its turns, cleans at least what was done at its start and stops only at a descriptor that is not done or after one round |
| `E1000Receive.Receiver.RawRead` | Kernel/Device/E1000.c:643-664 | hands out the oldest accepted frame not yet read, cut to the buffer, or nothing when the queue is empty |

## Left out

- PMM_dealloc_page is an empty stub in this commit (Kernel/Memory/PMM.c:282-287); the model follows the contract its callers and its header rely on, a frame that goes back to the allocator.
- TLB and CR3 reload effects inside the address-space code; the shootdown protocol is modelled on its own, and memory is read and written through the tables.
- SysV shared memory frames, which the walks cannot tell from private pages, and SYS_MPROTECT on COW pages, about which no permission is claimed.
- CowMachine.ActMInv: the fault handler's and copy-out's section from reading the count to storing the entry is one move, although clone does not take its lock; `CowFault.StalePromoteIff` and `CowFault.StaleCopyIff` say what a clone in between does to it.
- CowKernel.AddressSpaces.CloneAddressSpace: the call as one CPU makes it, without other CPUs between its accesses; those are the moves of `CowMachine`, where the counts, conservation and isolation are proved and the view of the child is not.
- CowKernel.AddressSpaces.CloneTree: a failed clone names a reason it met, a full resource or a device or large page; that such a reason in the cloned tree makes every clone fail is not stated. It is one method for the source's page-directory levels.
- CowDispatch.DispatchCalm: one move; `CowJoint.JointCounts` is the form over runs. That each CPU keeps to the space in its CR3 and to the tables in its hands is a condition of both, what the code does and not derived from it.
- CowSteps.ShareCowInv: the uninterrupted share; the interleaved one is `CowShares.MoveInv` and `CowStale.StaleShareIff`.
- CowRuns.RunInv: actions one after the other, the share being one; `CowLive.RunMInv` is the interleaved form.
- The free walk drops a slot from the live tables when it passes it; the source leaves the stale entry in a table it is about to free.
- Large (PS) pages below the root are not followed; the clone fails on them, as the source does.
- UserMemory.AccessibleIff: the walk stops at a large page, as Syscall_get_user_pte_ptr does; VMM_is_user_accessible (Kernel/Memory/VMM.c:801-828), which runs before it, does not look at that bit.
- ShareDma: whether the device-memory manager accepts one more mapping is a free choice.
- CowKernel.AddressSpaces.FreeTree: takes a root at any level, one method for the source's four nested walks.
- RegularFile.FileDesc.Open: the flag parsing, path lock and descriptor slot before the file is read.
- PipeRead.ReadPipe: the wait for data or room releases the lock and changes nothing, so the locked part after it is modelled.
- E1000Receive.Receiver.RawRead: the blocking loop around the locked part, the IRQ mode and the hand-over to ARP and sockets.
- Scheduler.ProcessTable.ForkInstall: register contexts, signals, exit events, wait queues and priorities are not part of the state.
- Scheduler.ProcessTable.Yield: the caller has a current slot; the call would bootstrap one for a CPU without.
- Scheduler.ProcessTable.HandleTimer: an interrupt on a CPU without a current slot, which would bootstrap one; slots are bootstrapped only at boot here.
- ProcRuns.FreesOnce: speaks of CPUs that run a slot; the branch of exit that goes to idle keeps the freed space in CR3 until the next load.
- Pids are unbounded numbers, CPU numbers of the timer and syscall paths coincide, and the generation counter does not wrap.
- TlbShootdown takes the memory accesses in program order (sequential consistency), and every target CPU has its local record.
- ELF parsing beyond segments, soname and needed entries; relocations, TLS, protections of segments (one acceptance bit per segment stands for file bounds, W^X and mapping).
- E1000 transmit, message queues, sockets, DRM, VFS, ACPI, signals beyond the exiting mark, ioctl dispatch and boot code: separate state that the parts modelled here neither read nor write.
