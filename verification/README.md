# BadgerOS kernel: a verified model

This project models the parts of the BadgerOS kernel whose correctness rests on invariants that no
single function shows, and proves those invariants in Dafny. `dafny verify dfyconfig.toml` checks it.

- **Memory.** `Bits`, `Words`, `Lists`, `Orders`, `BuddyBlocks`, `BuddyLists` and `BuddyPool` are the buddy allocator over
  its array of page headers; `SlabPages` and `Heap` are the slab allocator and `malloc`/`free` on top.
  Pages are named by their index in the pool, the circular lists are sequences of indices, and a slab
  bitmap is its 128 bits in word order.
- **Address spaces.** `PageWalk`, `PageRange` and `PageTable` are the Sv39/48/57 radix tree (sections
  4.3.2 and 4.4 of the RISC-V Privileged Architecture v20211203) as an array of entries in physical
  memory; `UserMemory` is translation, access checks and copies to user memory; `Vmm` is the allocator
  of kernel virtual ranges; `Pmp` compiles regions to physical memory protection entries (section 3.7.1
  of the same document).
- **Concurrency.** `Scheduler` is thread placement, `ThreadSteps` what its steps decide, and `Locks` the
  mutex and spinlock words. They are
  state machines whose labels are the atomic actions of the source: an atomic operation, or a list edit
  under its lock. Any number of CPUs, calls and clients interleave. Fields of a thread called history
  (`place`, `claim`, `begun`, `ended`) are never consulted by a step.
- **Parsing and conversion.** `Devicetree` and `Phandles` are the flattened devicetree parser (section
  5.4 of the Devicetree Specification v0.4) and its phandle table; `DoubleDabble`, `NumToStr` and
  `Decimal` are the decimal conversions; `IntRoutines` is software division and multiplication.
- **Filesystem and housekeeping.** `Ramfs` is the lifetime of inodes, `DirStream` directory listing as a
  byte stream, `Housekeeping` the queue of timed work.

Where the code departs from what it is for, the code is kept, an input that shows it is given, and the
exact condition is proved:

- `pt_split` gives the i-th part of a superpage frame `ppn + i` at every level. Mapping keeps every other
  translation if and only if each page outside the range whose superpage of level 2 or more is split
  lies in the first part, and no split superpage has a memory type. No walk panics if and only if the
  parts the pages lie in add up to an aligned number (`PageRange.MapRefinesUpdate`,
  `PageTable.SplitGigapage`, `PageRange.MegapageLosesType`).
- A PMP region that ends at the top of the 32-bit space wraps. The entries grant what was asked if and
  only if every non-empty region is encoded without that (`Pmp.GrantsIntent`, `Pmp.TopDenied`).
- `init_pool` flags the waste headers by an index that can wrap or exceed the table
  (`BuddyPool.WasteFlagging`, `BuddyPool.WasteUnflagged`).
- `memprotect_free_vaddr` tests the entry after the insertion point even at the end of the list, where an
  earlier removal leaves its old contents. The range is returned if and only if that test does not
  succeed (`Vmm.VirtualRanges.FreeVaddr`); it never does while the top page of the half is free, and a
  page it loses stays lost (`Vmm.ReleaseAll`). Filling the half with two allocations and freeing the
  first loses it (`Vmm.LoseRange`).
- `mutex_wait` blocks its thread before it locks the waiting list. A run keeps the placement invariant in
  all its states if and only if no timer clears THREAD_BLOCKED inside that window
  (`Scheduler.RunExact`); one that does goes on to link the thread twice (`Scheduler.WindowLinksTwice`).
- `content_len + 3` wraps for the last three 32-bit lengths. What the devicetree parser accepts is a
  flattening if and only if no length in the tree is one of them (`Devicetree.AcceptedExactly`,
  `Devicetree.WrappingAccepted`), so always if no word of the block is (`Devicetree.SmallInput`).
- `phandle_cmp` orders two phandles if and only if they are less than 2^31 apart (`Phandles.CmpExact`).
  Lookups find what the tree has, if and only if bisection meets the table in order
  (`Phandles.LookupExact`); that is so if the phandles fit in a half circle of the 32-bit numbers
  (`Phandles.LookupComplete`); two that are 2^31 apart lose one (`Phandles.FarLost`).
- Opening `..` through a directory that outlived its parent reaches a free slot. Opening keeps the link
  counts right if and only if the inode found is in use (`Ramfs.OpenStep`); six calls on a fresh
  filesystem lead there (`Ramfs.StaleParent`).
- The spinlock word counts at most 2^30 - 1 sharers (`Locks.SpinStepKeeps`, `Locks.ShareOverflows`).
- A housekeeping task with time zero or less is put first whatever is queued
  (`Housekeeping.Housekeeper.Add`, `Housekeeping.AddUnsorted`).

## Model

| member | source | states |
|---|---|---|
| Orders.PagesForExact | kernel/src/malloc/static-buddy.c:423 | the rounded page count is the least that holds the size, if and only if the 64-bit sum does not wrap |
| Orders.GetOrderLeast | kernel/src/malloc/static-buddy.c:122-147 | the bit-smearing order is the least k with n <= 2^k, if and only if n <= 2^63 |
| BuddyBlocks.BuddyFacts | kernel/src/malloc/static-buddy.c:217-225 | the XOR of an aligned index with its size is the other half of the aligned block of twice the size |
| BuddyBlocks.PartitionCovers | kernel/src/malloc/static-buddy.c:185-261 | under the owner invariant every page lies in exactly one block, and blocks are aligned to their size |
| BuddyBlocks.BuddyPairExists | kernel/src/malloc/static-buddy.c:217-238 | every aligned power-of-two partition of the pool with more than one block contains two buddies of equal order |
| BuddyBlocks.SplitPartition | kernel/src/malloc/static-buddy.c:185-198 | splitting a block keeps the partition of all pages |
| BuddyBlocks.MergePartition | kernel/src/malloc/static-buddy.c:217-238 | merging two buddies keeps the partition |
| BuddyLists.PushStep | kernel/src/malloc/static-buddy.c:149-177 | listing a block keeps partition, list membership, in_list flags and coalescing |
| BuddyLists.DropStep | kernel/src/malloc/static-buddy.c:149-177 | so does unlisting one |
| BuddyLists.SplitStep | kernel/src/malloc/static-buddy.c:185-198 | splitting an unlisted block keeps partition, lists, flags and coalescing |
| BuddyLists.MergeStep | kernel/src/malloc/static-buddy.c:217-238 | and so does merging it with its unlisted buddy |
| BuddyLists.LiveApart | kernel/src/malloc/static-buddy.c:416-477 | two allocated blocks do not overlap |
| BuddyLists.NothingLive | kernel/src/malloc/static-buddy.c:217-261 | with nothing allocated, coalescing leaves exactly the block of the largest order |
| BuddyPool.WasteFlagging | kernel/src/malloc/static-buddy.c:263-332 | all pages past the usable ones are flagged waste, if and only if there are none or the table covers them and they are at most as many; and which headers are flagged |
| BuddyPool.WasteUnflagged | kernel/src/malloc/static-buddy.c:263-332 | a region of five pages whose largest block has pages that no header flags |
| BuddyPool.Pool.constructor | kernel/src/malloc/static-buddy.c:263-332 | a new pool satisfies the whole invariant with nothing allocated |
| BuddyPool.Pool.SplitBlock | kernel/src/malloc/static-buddy.c:185-198 | keeps the invariant; the block stays unlisted with its order one less, and only the list of that order changes |
| BuddyPool.Pool.TryMergeBuddy | kernel/src/malloc/static-buddy.c:217-238 | merges if and only if the buddy is listed with the same order; the result is one block of the next order, and otherwise nothing changes |
| BuddyPool.Pool.FreeBlock | kernel/src/malloc/static-buddy.c:248-261 | the block leaves the allocations and is listed with no mergeable buddy left; max_order_free is right again for blocks of the usable part |
| BuddyPool.Pool.FindBlock | kernel/src/malloc/static-buddy.c:384-402 | finds a listed block of sufficient order whose requested pages hold no waste, if and only if there is one |
| BuddyPool.Pool.Carve | kernel/src/malloc/static-buddy.c:460-464 | splits a block down to the requested order, keeping the invariant |
| BuddyPool.Pool.LowerMaxOrderFree | kernel/src/malloc/static-buddy.c:466-469 | max_order_free is again the largest order with a non-empty list |
| BuddyPool.Pool.Allocate | kernel/src/malloc/static-buddy.c:416-477 | keeps the invariant; succeeds if and only if the guards pass and a suitable block is listed; adds exactly one allocation, which holds no waste in the requested pages; changes nothing on failure |
| BuddyPool.Pool.Deallocate | kernel/src/malloc/static-buddy.c:513-526 | keeps the invariant, removes exactly that allocation and marks exactly its block FREE |
| BuddyPool.ValidCovers | kernel/src/malloc/static-buddy.c:185-261 | in every valid pool blocks partition the pages and in_list holds exactly for listed blocks |
| BuddyPool.AllReleased | kernel/src/malloc/static-buddy.c:217-261 | a pool with nothing allocated is the single largest block, with all its counters back |
| BuddyPool.ReleaseAll | kernel/src/malloc/main.c:53-68 | freeing every allocation in any order restores that block |
| SlabPages.SlabLayout | kernel/src/malloc/slab-alloc.c:30-57 | a page holds as many slots as fit behind its header, and the list thresholds are the first counts above a quarter and a half of them |
| SlabPages.EmptyBitmapIs | kernel/src/malloc/slab-alloc.c:44-57 | the constant words of a fresh bitmap mark exactly the slots the last threshold counts |
| SlabPages.MoveMatch | kernel/src/malloc/slab-alloc.c:94-107 | moving a page between lists keeps every page on exactly the list of its size and fill |
| Heap.RaisedOk | kernel/src/malloc/slab-alloc.c:137-145 | the thresholds leave one more slot in the right list, and a page below full always has a free bit |
| Heap.LoweredOk | kernel/src/malloc/slab-alloc.c:242-248 | and so they do with one slot less; a slot in use is always counted |
| Heap.Heap.constructor | kernel/src/malloc/slab-alloc.c:173-180 | an empty heap is valid and has no live pointer |
| Heap.Heap.TakeListed | kernel/src/malloc/slab-alloc.c:136-148 | the last page of the list gains one slot and is listed by its new fill |
| Heap.Heap.NewPage | kernel/src/malloc/slab-alloc.c:154-169 | a new slab page is one buddy page of type SLAB, with every slot free |
| Heap.Heap.GetSlab | kernel/src/malloc/slab-alloc.c:131-170 | grants the fullest page of the size with room, else a new page; fails if and only if there is neither |
| Heap.Heap.TakeSlot | kernel/src/malloc/slab-alloc.c:205-219 | exactly the lowest free slot is taken and counts agree again; the branch without a free slot is never reached |
| Heap.Heap.SlabAllocate | kernel/src/malloc/slab-alloc.c:182-220 | keeps the invariant (count + free bits = capacity, fill in its interval, one empty page per size) and adds exactly one live slot, of the least size that holds the request; fails exactly when there is no free slot of that size and no page |
| Heap.Heap.SlabDeallocate | kernel/src/malloc/slab-alloc.c:222-257 | frees exactly the slot of the address, ignores a double free, and returns an empty page to the pool when another is kept |
| Heap.Heap.Malloc | kernel/src/malloc/malloc.c:89-98 | adds exactly one live pointer: up to 256 bytes the least slot of 32, 64, 128 or 256 bytes that holds them, above the least power of two of pages, of type PAGE; moves no other pointer, changes no foreign block, and fails exactly when there is no free slot of that size and no page, or no block |
| Heap.Heap.Free | kernel/src/malloc/malloc.c:158-171 | the type of the page's block routes every pointer malloc can have issued to the allocator it came from, and exactly that pointer dies; a double free of a slot and a foreign block change nothing live |
| Heap.FreeAll | kernel/src/malloc/malloc.c:158-171 | freeing every live pointer, in any order and at the address it was issued, leaves none live; the pool keeps only empty slab pages, one of each size at most, and the foreign blocks |
| Heap.LiveDisjoint | kernel/src/malloc/malloc.c:89-98 | the memory of any two live pointers, slots or blocks, is disjoint, and disjoint from blocks others take from the pool |
| Heap.InsideBlock | kernel/src/malloc/malloc.c:158-171 | a live pointer lies in its block, whose type is SLAB exactly for slots; so do foreign blocks |
| PageWalk.NeverCorrupt | kernel/port/generic/src/memprotect.c:88-142 | in a well-typed tree no walk reaches a pointer at the last level or leaves memory |
| PageWalk.LinkWalk | kernel/port/generic/src/memprotect.c:205-219 | linking a table changes no walk outside the block of the entry, and inside it walks go on in the new table |
| PageWalk.LeafWalk | kernel/port/generic/src/memprotect.c:221-227 | writing a leaf changes exactly the walks of its block |
| PageTable.SpanIsPow2 | kernel/cpu/riscv/include/cpu/mmu.h:136-139 | a level-l entry covers 2^(9l) pages |
| PageTable.CalcSuperpage | kernel/port/generic/src/memprotect.c:270-281 | the level is the largest allowed at which both page numbers are aligned and the range is long enough |
| PageTable.AddressSpace.constructor | kernel/port/generic/src/memprotect.c:498-500 | a zeroed root is a valid table that maps nothing |
| PageTable.AddressSpace.PhysPageAlloc | kernel/port/generic/src/memprotect.c:153-156 | gives a zeroed page no table uses, or none |
| PageTable.AddressSpace.PtSplit | kernel/port/generic/src/memprotect.c:146-180 | the leaf becomes a pointer to 512 leaves of the next level, each with the old flags and frame ppn + i |
| PageTable.AddressSpace.PtDescend | kernel/port/generic/src/memprotect.c:188-219 | goes down one level, adding or splitting a table if there is none, and fails only when no page is left; walks change only by the split |
| PageTable.AddressSpace.PtReach | kernel/port/generic/src/memprotect.c:201-221 | for any page number, reaches the table of the wanted level with only the splits on the way visible, and fails only when no page is left |
| PageTable.AddressSpace.PtMap1 | kernel/port/generic/src/memprotect.c:185-227 | for any page number, maps exactly one aligned block, other walks only degrade by the splits on the way, the tree stays well-typed, and at most one page per level on the way is taken |
| PageTable.AddressSpace.PtMap | kernel/port/generic/src/memprotect.c:284-295 | the whole range is mapped to consecutive frames with the flags, each page by a superpage as large as every aligned one it lies in; every other walk degrades exactly by the splits; it succeeds with the tables above its chunks and takes no more; fails only when no page is left; a top-level entry changes only if reported, and what is reported is a new table there unless the range holds a superpage of the top level |
| PageRange.UncutStep | kernel/port/generic/src/memprotect.c:270-295 | chunks of the largest level never cut an aligned superpage of the range |
| PageRange.TablesForOne | kernel/port/generic/src/memprotect.c:284-295 | an aligned superpage of level l takes at most the tables above it |
| PageTable.MapMegapage | kernel/port/generic/src/memprotect.c:284-295 | with one page left for tables, an aligned megapage of an empty three-level space is mapped by one leaf |
| PageRange.RangeTranslates | kernel/port/generic/src/memprotect.c:284-295 | a page of the mapped range translates to its frame with the given permissions and memory type, whatever the superpage |
| PageRange.DegradeShift | kernel/port/generic/src/memprotect.c:146-180 | splitting never moves a frame up, leaves a page's frame in place if and only if it lies in first parts, and keeps its memory type if and only if it has none or is not split |
| PageRange.MapRefinesUpdate | kernel/port/generic/src/memprotect.c:284-295 | mapping is the map update: inside as asked, memory type included; outside unchanged if and only if no page outside sits in a non-first part of a split high superpage or in a split one with a memory type; no walk panics afterwards if and only if the parts added to each split frame sum to a multiple of the span reached |
| PageRange.NoHighSplit | kernel/port/generic/src/memprotect.c:146-180 | that holds whenever only level-1 superpages are split |
| PageRange.GigapageSplitPanics | kernel/port/generic/src/memprotect.c:146-180 | after a split of a level-2 superpage, pages in its other parts make the walk panic |
| PageRange.MegapageLosesType | kernel/port/generic/src/memprotect.c:146-180 | mapping one page of a level-1 superpage of device memory leaves its other pages at their frames but as ordinary memory |
| PageTable.SplitGigapage | kernel/port/generic/src/memprotect.c:146-227 | from an empty space, a superpage of level 2 is mapped and no walk panics; mapping its first page alone then makes the walk of page 512 panic |
| UserMemory.PtWalk | kernel/port/generic/src/memprotect.c:88-142 | the loop gives exactly the leaf, the absence or the panic that the radix tree means for the page, and reports the non-canonical hole |
| UserMemory.LookupVaddr | kernel/port/generic/src/memprotect.c:324-344 | one lookup gives the access bits and the physical address of every byte up to the end of the page |
| UserMemory.MapContains | kernel/src/process/proc_memmap.c:177-195 | the result is the set of access bits common to every byte of the range, over any mix of page sizes; nothing in the kernel half |
| UserMemory.CopyToUser | kernel/cpu/riscv/src/usercopy.c:88-108 | succeeds if and only if the range is in the user half and all bytes share a bit; then byte k is at the translation of address + k and nothing else changed; on failure, also with any bytes unmapped, nothing changed |
| UserMemory.CanonicalByBlock | kernel/port/generic/src/memprotect.c:88-91 | all pages of a superpage are canonical or none is |
| PageRange.SameWalk | kernel/cpu/riscv/include/cpu/mmu.h:136-139 | address bits above the indexed ones do not reach the walk |
| UserMemory.CanonicalIndex | kernel/cpu/riscv/include/cpu/mmu.h:136-139 | the index of a canonical page is the page itself in the user half, and its distance from the start of the top half's span in the kernel half |
| UserMemory.LookupIndexed | kernel/port/generic/src/memprotect.c:88-142 | looking up any canonical page, in either half, is the translation of its index in the tree |
| UserMemory.MapRefinesPages | kernel/port/generic/src/memprotect.c:284-295 | mapping is the map update on the canonical pages of both halves: inside as asked; outside unchanged if and only if no page outside sits in a non-first part of a split high superpage or in a split one with a memory type |
| UserMemory.SoundNoPanics | kernel/port/generic/src/memprotect.c:88-142 | a table that never panics on indexed pages never panics on any address |
| Vmm.NormalFormUnique | kernel/port/generic/src/memprotect.c:347-474 | sorted, disjoint, non-adjacent lists that cover the same pages are equal |
| Vmm.FreeDetermined | kernel/port/generic/src/memprotect.c:347-474 | the free list is determined by what is used and reserved |
| Vmm.GuardPages | kernel/port/generic/src/memprotect.c:399-431 | the data of two allocations is at least two pages apart |
| Vmm.PagesSuffice | kernel/port/generic/src/memprotect.c:400-402 | an allocation has the least data pages for its length, and two guards |
| Vmm.VirtualRanges.constructor | kernel/port/generic/src/memprotect.c:484-492 | the whole half starts free |
| Vmm.VirtualRanges.MarkReserved | kernel/port/generic/src/memprotect.c:347-394 | exactly the clipped range moves from free to reserved, and what it leaves past the end of the list |
| Vmm.VirtualRanges.AllocVaddr | kernel/port/generic/src/memprotect.c:399-431 | takes the first free range that is large enough, fails only if there is none, keeps the three lists a partition, and leaves the last entry behind past the end when it empties a range |
| Vmm.VirtualRanges.FreeVaddr | kernel/port/generic/src/memprotect.c:434-474 | also after earlier losses, the range is in the free list again, in normal form, if and only if the test past the end of the list does not succeed; if it does, the free list loses its last entry or stays; what it leaves past the end is given in each case |
| Vmm.ReleaseAll | kernel/port/generic/src/memprotect.c:434-474 | freeing everything in any order empties the used list, and restores exactly the initial free list if and only if no test past the end succeeded; none does if the top page of the half is free |
| Vmm.LoseRange | kernel/port/generic/src/memprotect.c:434-474 | two allocations that fill the half, and the first one freed: the free list is empty and the range is in no list |
| Pmp.FirstMatchIsLowest | kernel/cpu/riscv/src/memprotect/riscv_pmp.c:304-385 | the entry that decides is the lowest-numbered one that matches |
| Pmp.NapotDecodes | kernel/cpu/riscv/include/cpu/riscv_pmp.h:369-383 | the NAPOT encoding of an accepted base and size decodes to them |
| Pmp.NapotExact | kernel/cpu/riscv/include/cpu/riscv_pmp.h:369-383 | the NAPOT test accepts exactly the power-of-two sizes from eight bytes on, at a multiple of the size |
| Pmp.EntriesUsed | kernel/cpu/riscv/src/memprotect/riscv_pmp.c:324-373 | a region takes one entry if it continues the one before or is four bytes or naturally aligned, else two |
| Pmp.ContinuedMatches | kernel/cpu/riscv/src/memprotect/riscv_pmp.c:363-373 | a TOR entry that continues from the entry before matches a byte no earlier region claims exactly when the byte lies in its region |
| Pmp.EntriesGrant | kernel/cpu/riscv/src/memprotect/riscv_pmp.c:304-385 | which region's permissions each byte gets, by priority, over all generated entries |
| Pmp.GrantsIntent | kernel/cpu/riscv/src/memprotect/riscv_pmp.c:304-385 | for disjoint aligned regions in any order every byte is readable, and writable and executable exactly as its region says, and no other byte is granted, if and only if every non-empty region is encoded without wrap-around |
| Pmp.TopDenied | kernel/cpu/riscv/src/memprotect/riscv_pmp.c:363-373 | an aligned region of three words up to the end of memory of which no byte is granted |
| Pmp.MisalignedMeans | kernel/cpu/riscv/src/memprotect/riscv_pmp.c:319-322 | the mask test is the alignment of base and size |
| Pmp.PmpContext.Memprotect | kernel/cpu/riscv/src/memprotect/riscv_pmp.c:304-385 | succeeds if and only if all regions are aligned and the entries fit; then the context holds exactly them; else it is unchanged |
| Pmp.CommittedMeans | kernel/cpu/riscv/src/memprotect/riscv_pmp.c:377-384 | the committed table decides every byte as the generated entries do |
| Scheduler.StepExact | kernel/src/scheduler/scheduler.c:84-334 | every atomic step, in any interleaving, keeps the placement invariant, if and only if it is not a timer that clears THREAD_BLOCKED between the two halves of a mutex_wait |
| Scheduler.RunExact | kernel/src/scheduler/scheduler.c:84-334 | the invariant holds in every state of a run, if and only if no such timer step occurs in it |
| Scheduler.Placement | kernel/src/scheduler/scheduler.c:246-334 | in every state reached without such a step a thread's node is linked once at most over all lists; queued and arriving threads are RUNNING and not EXITED; waits and the hand-offs ending them alternate |
| Scheduler.AssertionsHold | kernel/src/scheduler/scheduler.c:280-325 | the assertions on THREAD_RUNNING never fire |
| Scheduler.NeverCancelled | kernel/src/scheduler/scheduler.c:310-320 | a suspension is never seen cancelled, so the branch that switches without queueing is not taken |
| Scheduler.RemovesMembers | kernel/src/badgelib/mutex.c:39-124 | dlist_remove is only called on nodes of that list |
| Scheduler.OneWinner | kernel/src/badgelib/mutex.c:39-124 | a wait is won by the timer or by one notify, never by two |
| Scheduler.ExitedForever | kernel/src/scheduler/scheduler.c:727-755 | once EXITED a thread is never queued, handed off or made to wait again |
| Scheduler.ResumeKeeps | kernel/src/scheduler/scheduler.c:727-742 | the compare-and-swap of a resume succeeds only on a thread that is nowhere |
| Scheduler.ClaimKeeps | kernel/src/badgelib/mutex.c:44-47 | outside the window, clearing THREAD_BLOCKED claims a waiting thread for one call alone |
| Scheduler.BlockKeeps | kernel/src/badgelib/mutex.c:63-79 | the first half of mutex_wait takes the running thread off its queue, blocked and held by its CPU, and keeps the invariant |
| Scheduler.WaitLinkKeeps | kernel/src/badgelib/mutex.c:81-87 | its second half links exactly that thread into the waiting list and keeps the invariant |
| Scheduler.WindowBreaks | kernel/src/badgelib/mutex.c:44-47 | a timer that fires in between always breaks the invariant |
| Scheduler.WindowLinksTwice | kernel/src/badgelib/mutex.c:63-87 | from every state with a running thread, a timer that fires in between on another CPU goes on to link it into two lists |
| ThreadSteps.PickDecides | kernel/src/scheduler/scheduler.c:292-330 | a picked thread dies, stops or runs, exactly one of these: it dies if it is EXITING, or in user mode of an exiting process; else stops if asked to and in user mode or suspendable in the kernel |
| ThreadSteps.DiesOnlyIf | kernel/src/scheduler/scheduler.c:297-309 | every thread that is killed was picked with flags that say so |
| ThreadSteps.RunsOnlyIf | kernel/src/scheduler/scheduler.c:322-329 | every thread that starts to run was picked with flags that say neither die nor stop, and is still not EXITING |
| ThreadSteps.NeverRunsAgain | kernel/src/scheduler/scheduler.c:805-815 | in no run does a thread that calls thread_exit run again after that |
| ThreadSteps.FlagSteps | kernel/src/scheduler/scheduler.c:292-330 | for each flag and every step, which steps set it and which clear it: no others do |
| ThreadSteps.ListSteps | kernel/src/scheduler/scheduler.c:276-330 | for each list and every step, what moves: arrivals go to the end, START_NOW arrivals to the front of the queue, CPUs take the first, and nothing else moves |
| ThreadSteps.ScansRun | kernel/src/badgelib/mutex.c:89-124 | in every run, all waiters that notify has passed were woken by their timers already |
| ThreadSteps.NotifiesFirst | kernel/src/badgelib/mutex.c:94-118 | notify wakes the first waiter that no timer has woken |
| ThreadSteps.LockedListSame | kernel/src/badgelib/mutex.c:89-124 | while notify holds the lock of a waiting list nobody else changes the list |
| ThreadSteps.CpuGoesOn | kernel/src/scheduler/scheduler.c:246-334 | every CPU that is not switched off can make a step, except that mutex_wait waits for the lock |
| ThreadSteps.CallGoesOn | kernel/src/badgelib/mutex.c:39-124 | every resume, suspend, timer and notify call can make a step, except that a timer waits for the lock |
| ThreadSteps.CpuChoices | kernel/src/scheduler/scheduler.c:128-165 | a CPU may also balance its load or stop, and never hands a thread off to itself |
| ThreadSteps.ReapsOnlyIf | kernel/src/scheduler/scheduler.c:362-385 | a thread is reaped only if it is dead and detached |
| ThreadSteps.RequestsAllowed | kernel/src/scheduler/scheduler.c:695-742 | a resume succeeds exactly on a thread that is not RUNNING, EXITING or EXITED, a request to stop exactly on a RUNNING one, and a user's request never on a kernel thread |
| ThreadSteps.BornIdle | kernel/src/scheduler/scheduler.c:520-610 | a new thread is not running, has no request pending, and starts in the kernel exactly if it is a kernel thread |
| Locks.MutexStepKeeps | kernel/src/badgelib/mutex.c:127-176 | every step, with stale copies and spurious failures, keeps counter and holders in agreement |
| Locks.MutexExclusion | kernel/src/badgelib/mutex.c:180-260 | in every run from a new mutex the counter is the magic value exactly with one owner and no sharers, else the number of sharers |
| Locks.MutexReleases | kernel/src/badgelib/mutex.c:205-260 | a release never sticks: its swap or retry is always enabled and the assertions hold |
| Locks.MutexTakes | kernel/src/badgelib/mutex.c:127-176 | a client with a current copy takes the mutex exactly if nobody holds it, and shares it exactly if nobody owns it and the counter has room |
| Locks.TwoShare | kernel/src/badgelib/mutex.c:205-230 | a run in which two clients share a new mutex |
| Locks.SpinStepKeeps | kernel/src/badgelib/spinlock.c:13-45 | a step keeps sign, count and shareable bit, if and only if it does not take share number 2^30 |
| Locks.SpinExclusion | kernel/src/badgelib/spinlock.c:13-45 | in every run of fewer than 2^30 clients from a new spinlock the encoding holds and the shareable bit survives |
| Locks.ShareOverflows | kernel/src/badgelib/spinlock.c:29-45 | a run of 2^30 clients, each of which takes a share, after which the word is negative while all share |
| Locks.SpinReleases | kernel/src/badgelib/spinlock.c:23-45 | the assertions of the releases hold |
| Locks.SpinTakes | kernel/src/badgelib/spinlock.c:13-40 | the same for the spinlock, whose sharing needs the shareable bit |
| Devicetree.PaddedExact | kernel/port/generic/src/dtb.c:55 | the 32-bit rounding is the length in whole words, if and only if the length is at most 0xFFFFFFFC; above that it is zero |
| Devicetree.NodeSound | kernel/port/generic/src/dtb.c:62-109 | what is accepted is a flattening of the returned tree, if no length in it is above 0xFFFFFFFC |
| Devicetree.NodeComplete | kernel/port/generic/src/dtb.c:62-109 | every flattening with such lengths, with NOPs anywhere between tokens, is accepted |
| Devicetree.ParsesExactly | kernel/port/generic/src/dtb.c:62-109 | acceptance, extent and tree of the parser, on trees with such lengths, are exactly those of the flattenings; every flattening in a block of a 32-bit size has such lengths |
| Devicetree.AcceptedExactly | kernel/port/generic/src/dtb.c:39-109 | what is accepted is a flattening, and there is any, if and only if no length in the returned tree is above 0xFFFFFFFC |
| Devicetree.SmallInput | kernel/port/generic/src/dtb.c:39-109 | in a block without a word above 0xFFFFFFFC, what is accepted is exactly the flattenings |
| Devicetree.WrappingAccepted | kernel/port/generic/src/dtb.c:39-59 | a block of seven words that is accepted with a property of 4 GiB - 1 bytes and no content, and that flattens no tree |
| Devicetree.PropAt | kernel/port/generic/src/dtb.c:39-59 | the loop is the parser of a property, and leaves the offset on failure |
| Devicetree.NodeAt | kernel/port/generic/src/dtb.c:62-109 | the recursive loops are the parser of a node, and leave the offset on failure |
| Devicetree.Open | kernel/port/generic/src/dtb.c:164-182 | a block is opened to a tree with such lengths, if and only if it is one flattened root, NOPs and the end token |
| Phandles.CmpExact | kernel/port/generic/src/dtb.c:23-27 | the comparison orders two phandles if and only if they are less than 2^31 apart |
| Phandles.ReadsNumber | kernel/port/generic/src/dtb.c:251-260 | the bytes of a property are read as the big-endian number modulo 2^64 |
| Phandles.CellValue | kernel/port/generic/src/dtb.c:251-260 | one cell reads as its word, two as both |
| Phandles.PhandleIs | kernel/port/generic/src/dtb.c:218-227 | the value found is that of the first property named phandle, wherever it is, and there is one exactly if such a property exists |
| Phandles.CmpInHalf | kernel/port/generic/src/dtb.c:23-27 | among phandles of one half circle the comparison is the order along it |
| Phandles.BinSearch | kernel/port/generic/src/dtb.c:240-246 | the loop is the bisection of any table, sorted or not |
| Phandles.SearchFinds | kernel/port/generic/src/dtb.c:240-246 | on a sorted table of one half circle bisection finds a phandle if and only if the table holds it, and otherwise its place |
| Phandles.SearchExact | kernel/port/generic/src/dtb.c:240-246 | on any table without a phandle twice bisection finds every entry, if and only if the comparison orders each middle entry with all entries of its interval |
| Phandles.InsertedFacts | kernel/port/generic/src/dtb.c:136-139 | an insertion adds exactly the node to any table, and keeps a table of one half circle sorted |
| Phandles.Handle.Insert | kernel/port/generic/src/dtb.c:136-139 | the insertion at the place bisection gives |
| Phandles.Handle.BuildRefs | kernel/port/generic/src/dtb.c:112-146 | the table of any tree holds exactly its nodes that carry a phandle, and is sorted if they fit in a half circle |
| Phandles.LookupSound | kernel/port/generic/src/dtb.c:240-246 | in the table built from any tree, a lookup returns only nodes that carry the phandle |
| Phandles.LookupComplete | kernel/port/generic/src/dtb.c:240-246 | if the phandles of the tree fit in a half circle, it returns one if there is one, whatever phandle is asked for |
| Phandles.LookupExact | kernel/port/generic/src/dtb.c:240-246 | in a tree without a phandle twice every phandle leads to its node, if and only if bisection meets the built table in order |
| Phandles.FarLost | kernel/port/generic/src/dtb.c:23-27 | in a tree with phandles 1 and 0x80000001 the lookup of 1 fails |
| Phandles.Handle.PhandleNode | kernel/port/generic/src/dtb.c:240-246 | a node that is returned carries the phandle; one is returned if there is one and the phandles of the tree fit in a half circle |
| DoubleDabble.Doubles | kernel/src/badgelib/num_to_str.c:22-28 | the masked add and shift double a decimal number: digits stay digits and every carry arrives |
| NumToStr.Dabble | kernel/src/badgelib/num_to_str.c:14-57 | the 16- and 32-bit loops leave digits whose positional value is the input |
| NumToStr.Dabble64 | kernel/src/badgelib/num_to_str.c:60-82 | so does the 64-bit loop, with no carry lost between its two words |
| Decimal.Fill | kernel/src/badgelib/num_to_str.c:31-33 | the output loop writes exactly the digits of the accumulator's number |
| Decimal.NumUintToStr | kernel/src/badgelib/num_to_str.c:96-121 | the buffer is the zero-padded number and the result its number of significant digits |
| Decimal.IntToCstr | kernel/src/badgelib/num_to_str.c:128-155 | a large enough buffer gets the canonical decimal string and its length, the smallest integer included; a shorter one the sign and last digits |
| Decimal.RoundTrip | kernel/src/badgelib/num_to_str.c:128-155 | parsing the canonical string gives the number back |
| IntRoutines.DivMod | kernel/src/freestanding/int_routines.c:32-49 | terminates with a = q * b + r and r < b at every width |
| IntRoutines.UDivMod | kernel/src/freestanding/int_routines.c:69-79 | quotient and remainder, and the values for a zero divisor |
| IntRoutines.Truncates | kernel/src/freestanding/int_routines.c:91-118 | truncating division divides: a = q * b + r, with the remainder smaller than the divisor and signed like the dividend |
| IntRoutines.Div | kernel/src/freestanding/int_routines.c:91-104 | the signed quotient is truncating division modulo 2^n, the minimum included |
| IntRoutines.Mod | kernel/src/freestanding/int_routines.c:105-118 | the signed remainder likewise |
| IntRoutines.MulSi | kernel/src/freestanding/int_routines.c:147-157 | shift-and-add is the product modulo 2^32 |
| Ramfs.NamedInUse | kernel/src/filesystem/vfs_ramfs.c:98-110 | whatever a name in a live directory leads to is in use |
| Ramfs.FreeUnreachable | kernel/src/filesystem/vfs_ramfs.c:52-58 | a slot find_inode may hand out has no name and no handle |
| Ramfs.OpenStep | kernel/src/filesystem/vfs_ramfs.c:487-496 | opening keeps link counts above names and handles, if and only if the inode found is in use |
| Ramfs.CloseStep | kernel/src/filesystem/vfs_ramfs.c:61-68 | closing gives the link back, and frees the slot with the last one |
| Ramfs.UnlinkStep | kernel/src/filesystem/vfs_ramfs.c:335-350 | unlinking a file or empty directory keeps the counts, and never frees the directory it works in |
| Ramfs.StaleParent | kernel/src/filesystem/vfs_ramfs.c:469-500 | directories a and a/b are created and opened, both are unlinked and a is closed; opening .. through b then opens a free slot and breaks the invariant |
| Ramfs.FindDirent | kernel/src/filesystem/vfs_ramfs.c:98-110 | the first entry of the name, if any |
| Ramfs.FindInode | kernel/src/filesystem/vfs_ramfs.c:52-58 | the first free slot, if any |
| Ramfs.Filesystem.constructor | kernel/src/filesystem/vfs_ramfs.c:186-250 | a mounted filesystem is the root with its two dot entries |
| Ramfs.Filesystem.Create | kernel/src/filesystem/vfs_ramfs.c:114-168 | a new name leads to a slot nothing referred to, with one link and the dot entries of a directory or none of a file; otherwise nothing changes and the error says why |
| Ramfs.Filesystem.Unlink | kernel/src/filesystem/vfs_ramfs.c:311-353 | removes exactly the entry and one link; refuses exactly dots, missing names and directories with files |
| Ramfs.Filesystem.Open | kernel/src/filesystem/vfs_ramfs.c:469-500 | counts a link and installs the handle; valid exactly when the inode was in use, and always for proper names |
| Ramfs.Filesystem.Close | kernel/src/filesystem/vfs_ramfs.c:504-510 | drops the handle and its link |
| DirStream.Measure | kernel/src/filesystem/vfs_ramfs.c:403-409 | the measured memory is the sum of the converted record lengths |
| DirStream.RecordLen | kernel/src/filesystem/vfs_ramfs.c:373-378 | a record is the least multiple of 8 that holds header, name and terminator |
| DirStream.ConvertDirent | kernel/src/filesystem/vfs_ramfs.c:382-394 | the bytes written are the entry of the record, and earlier ones stay |
| DirStream.DirRead | kernel/src/filesystem/vfs_ramfs.c:398-434 | the stream holds the converted entries in order and fills exactly the measured memory |
| DirStream.DirHandle.Read | kernel/src/filesystem/filesystem.c:763-774 | a read at offset 0 rebuilds the cache; every read is clipped to it |
| DirStream.DirHandle.DirNext | kernel/src/filesystem/filesystem.c:553-597 | returns the next entry and moves past it, or reports the end |
| DirStream.ListAll | kernel/src/filesystem/filesystem.c:553-597 | reading from offset 0 to the end returns exactly the directory's entries, in order |
| DirStream.DecEnc | kernel/src/filesystem/vfs_ramfs.c:382-394 | a stored field reads back as itself |
| Housekeeping.Advance | kernel/src/housekeeping.c:72-79 | one run of a repeating task is its first due call, and leaves the other calls and the same final time |
| Housekeeping.Housekeeper.Add | kernel/src/housekeeping.c:108-132 | the entry is added, and the queue stays sorted if and only if the time is positive or nothing earlier is queued |
| Housekeeping.AddUnsorted | kernel/src/housekeeping.c:108-132 | two tasks that leave the queue unsorted |
| Housekeeping.Housekeeper.CatchUp | kernel/src/housekeeping.c:66-80 | the pass terminates, calls in scheduled order, calls each task exactly at the times next + k * interval up to now, and leaves a sorted queue of what follows |

## Left out

- BuddyPool.Pool.Allocate: sizes above 2^64 - 4096, whose page count wraps to zero; Orders.PagesForExact gives the boundary.
- Heap.Heap.Malloc: the same sizes.
- BuddyPool.Pool.constructor: a pool whose waste reaches its usable pages, or whose table has fewer than 2^order headers; BuddyPool.WasteFlagging gives the boundary.
- Heap.Heap.constructor: the same pools.
- Several memory pools: the loop over pools in buddy_allocate and the lookup of a pointer's pool; one pool is modelled.
- PageTable.AddressSpace.PtMap: truncation of frame numbers to 44 bits.
- Vmm.VirtualRanges.MarkReserved: ranges that do not lie in one free entry after clipping, on which the code asserts (memprotect.c:359-363).
- Vmm.VirtualRanges.FreeVaddr: what the copies past the end of the array overwrite; only the list itself is modelled there.
- UserMemory.CopyToUser: frames that hold page tables, and ranges two of whose mapped bytes share a frame byte.
- Pmp.PmpContext.Memprotect: configurations in which entry 0 is not the first one of a process.
- Scheduler.Placement: CPU loads (any outcome of a load test is allowed), priorities and signals; a hand-off without space loses the thread, as in the source; liveness.
- Locks.MutexExclusion: waiting and timeouts, except that an attempt may end at any time; thread waiting is in Scheduler.
- Devicetree.NodeAt: the depth counter, and offsets of 2^32 words or more, which a 32-bit total size excludes.
- Phandles.Handle.BuildRefs: the parent and sibling pointers, which follow from the tree.
- Phandles.LookupExact: trees in which two nodes carry the same phandle, which the Devicetree Specification excludes (section 2.3.3); and a condition on the tree itself, since the table depends on the order of insertion.
- Decimal.IntToCstr: the unsigned variant and the packed ones, which have other copy sizes and a one-byte case of their own.
- Ramfs.Filesystem.Create: byte layout, allocation failure and over-long names; directories are sequences of entries here, and bytes in DirStream.
- DirStream.DirRead: allocation failure, and layouts of a 32-bit target.
- Housekeeping.Housekeeper.CatchUp: callbacks that change the queue.
- Unmapping and broadcasting of page tables, reallocation, file contents, the block-device cache, the virtual file system's handles, drivers, interrupts, system calls and logging.
