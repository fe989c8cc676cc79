# StyxOS kernel: a verified model

This project models the parts of the StyxOS x86-64 microkernel whose correctness is hard to see by
reading one function, and proves what they are for. Mutable kernel state is a Dafny class or array
changed in place; beside each such class stands a pure specification, and the whole-run results are
lemmas about that specification.

- **PathORAM block store** (`OramTree`, `OramSpec`, `Oram`). A bucket tree of depth L with Z slots a
  bucket, a stash of 2^L blocks and a position map. Every access keeps the invariant that a block has
  one copy, on the path of its leaf or in the stash; the stash cannot overflow; every run of reads and
  writes, with every choice of leaves, answers as a plain array does; and the disk traffic of an access
  depends on nothing but the leaf it reads.
- **Memory** (`Bitmap`, `Pmm`, `Pte`, `PageTables`, `Vmm`, `DirectMap`, `HeapSpec`, `KernelHeap`, `Elf`,
  `ElfImage`, `Tasks`).
  The frame bitmap refines a set; four-level page tables in mutable memory refine a map, one page at a
  time, and let user mode through to every user page; the first-fit heap tiles its range through every
  run and gives back what is freed; program loading puts every byte where the program headers ask; and
  from boot on, under any mix of task creation and loading of images that stay clear of the kernel's own
  pages, the lower halves of different tasks have no table and no page in common.
- **xHCI rings** (`RingSpec`, `Xhci`). Cycle-bit rings refine an unbounded queue over any number of wraps.
- **Scheduling and capabilities** (`SchedSpec`, `Sched`, `CapSpec`, `IpcSpec`, `CapEngine`). A waiting
  bound in timer ticks, one running task, exactly when blocking holds, authority that never grows and
  is checked right by right, revocation for good, and exactly-once delivery in order.
- **Cryptography** (`AesBytes`, `AesSpec`, `Aes`, `AesExample`, `XtsSpec`, `Xts`, `GhashField`,
  `GcmSpec`, `Gcm`, `BigEndian`, `Sha512Spec`, `Sha512`, `Sha512Example`, `Hkdf`). Round trips of AES-256,
  XTS and GCM for every key, the S-box, the key schedule and the GHASH product from first principles, the
  examples of the standards for AES-256 and SHA-512, and streaming SHA-512 with its padding.
- **FAT32** (`FatLayout`, `UsbImage`, `Fat32Spec`, `Fat32`, `FatRoundTrip`, `FatVolume`). What the Python
  image builder writes, the C reader gives back; and on every volume, whatever its parameters and
  however scattered its files, the reader finds and reads what the tables say.

Input that the kernel gets from outside is a parameter: random leaves, frames granted to the heap, the
outcome of the signature verification before a program is loaded, and the outcomes of the two heap allocations
in task creation. A device is a sequence of sectors.

## What turned out not to hold

- The loader does not look at where a segment goes. A page it maps in the kernel half appears in every
  address space that shares the kernel table there. After a complete load whose pages were not open to
  user programs before, other address spaces are as they were if and only if none of them shares the
  tables of a segment page (`Elf.OthersSameExactly`, in the contract of `Elf.Load`); their lower halves
  always are (`Elf.OthersKeepLower`). `Elf.UpperPageIsSeen` and `Elf.UpperSegmentIsSeen` show two address
  spaces where one reads what was loaded into the other.
- The kernel reaches every table and page through its direct map, and the loader maps over that too. A
  segment page at the place of a frame takes the frame away, in the address space loaded into
  and in those that share the tables (`Elf.WindowKeptIff`, `Elf.WindowLostByOthers`,
  `Elf.SegmentOverWindow`); the kernel's next write to that frame then goes to the loaded page. The model
  writes frames directly, so what it says of later operations is true of the code exactly as long as the
  direct map is intact, which is `Tasks.Kernel.Grounded`. Loads clear of the direct map and of the
  kernel's own text and data keep it so, and `Tasks.Serve` states separation for runs of such loads.
- A page mapped for user programs in the kernel half is open to the user programs of another address
  space that shares the tables if and only if that address space's own top-level entry has the user bit,
  which the mapping does not set there (`Vmm.SharedOpen`, `Elf.OpenToOthers`).
- Blocking does not keep the current task off the processor. `sched_block` marks it BLOCKED and yields, and
  the yield writes READY over the outgoing state; without another READY task it simply runs on. Blocking
  holds until the task is unblocked if and only if the task is not the current one
  (`SchedSpec.BlockHoldsIff`); `SchedSpec.SelfBlockExample` is a run of ten ticks in which a task that
  blocked itself is back without having been unblocked. A sender or receiver parks by blocking itself, so
  it returns from the call although nothing was delivered yet.
- Freeing physical address 0 makes frame 0 allocatable, and its address is the failure value of the
  allocator: `Pmm.Allocator.FreeFrame` keeps the invariant if and only if the address is not 0 or the
  call is refused, and `Pmm.FreeZero` shows that it is accepted whenever a frame is tracked.
- A consumer of the xHCI ring that stops in front of the Link entry, rather than following it with the
  entry before, is caught there by a 63rd outstanding entry. `Xhci.LazyIsQueueIff` says from positions
  and counts in which runs it still sees the queue, both ways; `Xhci.LazyIsQueue` that one slot of slack
  is enough; `Xhci.LazyFails` gives a run from a fresh ring that goes wrong.
- GCM decryption in place checks the tag against the plaintext, because the buffer is overwritten before
  it is hashed. `Gcm.SealThenUnsealInPlace` states when a sealed text is accepted all the same: if and
  only if the difference of ciphertext and plaintext hashes to zero. With every key whose hash key has an
  inverse, one block is accepted only if the cipher leaves it as it is, and refused under one at least of
  any two nonces (`GcmSpec.InPlaceOneBlock`, `GcmSpec.InPlaceFails`).
- SHA-512 writes a 64-bit length: `Sha512Spec.PaddingIsStandard` shows the padding to be that of
  FIPS 180-4 exactly for messages under 2^61 bytes.
- HKDF expansion keeps 128 bytes of the context string: `Hkdf.LongContextsCollide` shows that longer
  strings with a common beginning give one key, and `Hkdf.Expand` states RFC 5869 for the others. That
  longer strings always give a wrong key is not stated, since it would say that no hash values collide.

## Model

| member | source | states |
|---|---|---|
| OramTree.PathShape | kernel/oram.c:93-99 | a path has L+1 distinct in-range nodes from the root to the leaf's node, each the parent of the next |
| OramTree.AncestorIffOnPath | kernel/oram.c:84-99 | a node is an ancestor of a leaf's node if and only if it lies on that leaf's path |
| OramTree.IsAncestor | kernel/oram.c:84-91 | the upward loop decides the ancestor relation |
| OramTree.GetPath | kernel/oram.c:93-99 | the backward loop fills in exactly the path of the leaf, root first |
| OramSpec.PickSplits | kernel/oram.c:250-262 | greedy eviction splits the stash without loss or duplication and takes only blocks whose leaf is below the node |
| OramSpec.PickGreedy | kernel/oram.c:250-262 | a block that could go into the bucket stays behind only when the bucket is full |
| OramSpec.Pigeonhole | kernel/oram.c:201-228 | blocks with distinct in-range numbers are at most as many as there are numbers |
| OramSpec.LoadPathKeepsInv | kernel/oram.c:194-209 | reading a path moves its blocks to the stash and keeps the invariant with the path's buckets set aside |
| OramSpec.TouchKeepsInv | kernel/oram.c:211-237 | serving the request and remapping its block changes the contents of that one logical block and keeps the invariant |
| OramSpec.EvictPathKeepsInv | kernel/oram.c:239-266 | rewriting the path from the leaf up restores the invariant for the whole tree |
| OramSpec.StashFits | kernel/oram.c:200-228 | the loaded path and the block to be written fit the stash, so neither overflow branch is reachable |
| OramSpec.AccessRefines | kernel/oram.c:183-272 | one access keeps the invariant, answers the block's contents and updates the abstract array |
| OramSpec.FormatEstablishesInv | kernel/oram.c:102-137 | a formatted store holds an array of zero blocks, for every choice of leaves |
| OramSpec.RunReadsLastWritten | kernel/oram.c:183-272 | from any state that satisfies the invariant, the k-th answer of a run is the last data written before it to that block |
| OramSpec.OramIsAnArray | kernel/oram.c:183-272 | after formatting, in every in-range run with every choice of leaves, each answer is the last data written to that block, or zeros |
| OramSpec.OneCopyOnItsPath | kernel/oram.c:194-266 | a real slot of the tree lies on the path of its block's leaf, and its block is in no other slot and not in the stash |
| OramSpec.EvictGreedy | kernel/oram.c:239-266 | after eviction a block is left in the stash only if every bucket of the path that could hold it is full |
| Oram.Store.Format | kernel/oram.c:102-137 | overwriting every slot with a dummy and drawing positions establishes the invariant over any earlier disk contents |
| Oram.Store.LoadPath | kernel/oram.c:194-209 | the stash gains exactly the real blocks of the path, and the overflow exit is taken if and only if they do not fit |
| Oram.Store.Serve | kernel/oram.c:211-233 | the stash and the caller's buffer after the request are as specified, and the overflow exit is taken if and only if a new block does not fit |
| Oram.Store.RemoveAt | kernel/oram.c:256-258 | the shifting loop closes the gap and keeps every other entry in order |
| Oram.Store.FillBucket | kernel/oram.c:244-262 | the in-place removal loop leaves bucket and stash as greedy eviction splits them |
| Oram.Store.RefillPath | kernel/oram.c:239-266 | the buckets of the path are rewritten as eviction specifies, and nothing else on disk |
| Oram.Store.Access | kernel/oram.c:183-272 | an in-range access returns 0, answers and updates the abstract array, keeps the invariant, and reads and writes exactly the slots of the old leaf's path; an out-of-range one returns -1 and changes nothing |
| Oram.Store.Run | kernel/oram.c:183-272 | every request of a run succeeds, every read answers the last data written, and the whole disk traffic is, access by access, the path of the leaf drawn at the last access to that block |
| Oram.TraceHidesData | kernel/oram.c:183-272 | the traffic of a run depends on the blocks and the leaves drawn, not on data or on reading and writing |
| Oram.Store.Perform | kernel/oram.c:189-266 | load, serve, remap and evict take the state through the specified access without reaching an overflow exit |
| Bitmap.MarkUsed | kernel/pmm.c:104-104 | setting one bit removes that frame from the set of free frames and no other |
| Bitmap.MarkFree | kernel/pmm.c:93-93 | clearing one bit adds that frame and no other |
| Pmm.Allocator.LeastFree | kernel/pmm.c:125-146 | the byte and bit scan finds the least free frame, and -1 if and only if none is free |
| Pmm.Allocator.AllocFrame | kernel/pmm.c:125-146 | hands out the least free frame and takes it from the set; NULL if and only if none is free; free memory stays 4096 times the count |
| Pmm.Allocator.FreeFrame | kernel/pmm.c:148-170 | accepts exactly aligned, in-range, allocated frames, adds that frame alone, and leaves the state as it is otherwise; the invariant survives if and only if the address is not 0 or the call is refused |
| Pmm.FreeZero | kernel/pmm.c:148-170 | freeing address 0 is accepted whenever a frame is tracked, and breaks the invariant |
| Pmm.FindEnd | kernel/pmm.c:29-42 | the largest end of a usable entry |
| Pmm.PlaceBitmap | kernel/pmm.c:55-69 | a place is found if and only if some usable entry has room after alignment, and it is inside one |
| Pmm.MarkUsable | kernel/pmm.c:84-97 | the frames cleared are exactly those wholly inside a usable entry |
| Pmm.MarkRegionUsed | kernel/pmm.c:99-106 | exactly the frames the bitmap overlaps are taken away |
| Pmm.CountFree | kernel/pmm.c:111-118 | the loop counts the free set |
| Pmm.Init | kernel/pmm.c:24-123 | the free set is exactly the frames wholly inside usable entries, without frame 0 and the bitmap's own frames; failure if and only if there is no usable memory or no room for the bitmap |
| Pmm.CoveredFrames | kernel/pmm.c:84-97 | a frame inside a usable entry is always within the tracked range, so the range guard loses nothing |
| Pte.MapWord | kernel/vmm.c:126-127 | the stored word decodes to the masked frame and the given flags |
| Pte.LinkWord | kernel/vmm.c:79-90 | a link word decodes to the new table's frame, present, writable, and user as asked |
| Pte.OrUserWord | kernel/vmm.c:91-93 | adding the user bit changes no other flag and not the frame |
| Pte.FrameIsPage | kernel/vmm.c:127-127 | the masked frame of a word is the page number of its address modulo 2^40 |
| Pte.MapWordIsEntry | kernel/vmm.c:126-127 | the stored word decodes to the entry of that page number and those flags, which is what MapPage writes |
| PageTables.IndicesIffPage | kernel/vmm.c:72-75 | two addresses have the same four indices if and only if they are in the same 48-bit page |
| PageTables.LastOwner | kernel/vmm.c:81-124 | a walk that stays present ends in the table owned by that address space and index prefix: tables are never shared by two paths |
| PageTables.RootReachOwner | kernel/vmm.c:81-124 | every table on the way, at each of the three levels, is owned by that address space and that prefix |
| PageTables.LastShared | kernel/vmm.c:81-124 | two walks end in one table if and only if the roots share the top entry and the prefixes agree |
| PageTables.LowerHalfUnshared | kernel/task.c:125-131 | roots share tables in the kernel half only |
| PageTables.LinkKeepsWellFormed | kernel/vmm.c:82-90 | linking a zeroed fresh frame keeps the tables an unaliased tree |
| PageTables.LinkKeepsWalks | kernel/vmm.c:82-90 | a freshly linked table changes no walk from any root |
| PageTables.OrUserKeepsWalks | kernel/vmm.c:91-93 | adding the user bit on the way changes no walk's result |
| PageTables.LinkKeepsPasses | kernel/vmm.c:82-90 | a freshly linked table takes no user access away: what the entries on a way let through they still do |
| PageTables.OrUserKeepsPasses | kernel/vmm.c:91-93 | nor does adding the user bit |
| PageTables.LeafKeepsPasses | kernel/vmm.c:126-127 | nor does writing a last-level entry |
| PageTables.LeafWrite | kernel/vmm.c:126-127 | writing a last-level entry changes the walk of its own path from the roots that share the tables there, and no other walk from any root |
| Vmm.TranslateIsLeaf | kernel/vmm.c:304-328 | the level-by-level translation is the leaf the page tables stand for, plus the offset, or 0 |
| Vmm.LeafWriteOnlyPage | kernel/vmm.c:126-127 | a last-level write changes one page, in the address spaces that share its tables, and nothing else in any address space |
| Vmm.SharedOpen | kernel/vmm.c:76-79 | an address space that shares the tables of an open page lets its own user mode through if and only if its own top-level entry has the user bit |
| Vmm.ThreeLinks | kernel/vmm.c:76-124 | three present, writable entries with the user bit let user mode through to the last-level table |
| Vmm.Machine.InitTables | kernel/vmm.c:184-193 | the first, empty root, made current; refused if and only if no frame is free |
| Vmm.Machine.SetRoot | kernel/vmm.c:156-158 | selects the active tables |
| Vmm.Machine.EnsureTable | kernel/vmm.c:81-94 | one level of the descent ends in the table owned by that path, allocating at most one frame and changing no translation; it halts only when no frame is free |
| Vmm.Machine.EnsurePath | kernel/vmm.c:81-124 | the three levels together reach the last-level table of the address and change no translation; when asked for a user page they all let user mode through, and no address space loses access it had |
| Vmm.Machine.MapPage | kernel/vmm.c:66-128 | afterwards the page has the new entry, in this address space and in those that share its kernel tables there, and every other 48-bit page of every address space translates as before; a user page is open to user mode at every level, and whatever was open in any address space still is; the tables stay unaliased and private and nobody comes to share tables |
| Vmm.Machine.UnmapPage | kernel/vmm.c:130-150 | afterwards exactly that page translates to nothing, in this address space and in those that share its kernel tables there, also when a level was missing; the tables let user mode through where they did |
| Vmm.Machine.VirtToPhys | kernel/vmm.c:299-328 | outside the direct-map window the frame and offset of the leaf, or 0; inside it the shortcut |
| HeapSpec.AllocKeepsTiles | kernel/heap.c:186-210 | taking a block, split or whole, keeps the exact tiling |
| HeapSpec.FreeKeepsTiles | kernel/heap.c:262-281 | freeing with forward merging keeps the exact tiling |
| HeapSpec.GrowKeepsTiles | kernel/heap.c:86-122 | growth extends the tiling by whole pages with room for the request |
| HeapSpec.Conservation | kernel/heap.c:155-159 | headers and payloads add up to the mapped size |
| HeapSpec.GrowThenFits | kernel/heap.c:217-238 | after growth the first block that fits is the new one, so the retry cannot grow again |
| HeapSpec.AllocLive | kernel/heap.c:186-210 | the live set gains exactly the taken block: the size asked for when more than 48 bytes would be left, the whole block otherwise |
| HeapSpec.FreeLive | kernel/heap.c:262-281 | the live set loses exactly the freed block, whatever is merged |
| HeapSpec.LiveDisjoint | kernel/heap.c:167-282 | live allocations are 16-aligned, inside the heap and pairwise disjoint with their headers |
| HeapSpec.MallocStep | kernel/heap.c:167-239 | NULL if and only if no block fits and growth is refused, and then nothing changed; otherwise one new live block, large enough, slack at most 48 |
| HeapSpec.FreeStep | kernel/heap.c:241-282 | a live address loses its block alone; any other address changes nothing |
| HeapSpec.FreeServes | kernel/heap.c:241-282 | after a block is freed, a request is served at its address if and only if it fits the block, with a free successor and its header, and nothing lower down; a request that fits there is served there or lower, without growth |
| HeapSpec.FreeUndoesMallocIff | kernel/heap.c:167-282 | freeing what was just allocated gives the heap back if and only if the block was split or has no free successor |
| HeapSpec.WholeAgain | kernel/heap.c:167-282 | the block an allocation was cut from can be allocated whole, at the same address and without growth, once the allocation is freed |
| HeapSpec.NullIff | kernel/heap.c:86-239 | NULL if and only if nothing is asked for, or no free block is large enough and no number of pages that would do is granted and below the ceiling |
| HeapSpec.GrowPagesLeast | kernel/heap.c:86-95 | growth takes the fewest pages that hold the header and the request |
| HeapSpec.RunTiles | kernel/heap.c:86-282 | through every run of allocations, frees and growth the list tiles the heap exactly |
| HeapSpec.LiveSurvives | kernel/heap.c:167-282 | a live block stays as it is through every run that does not free it |
| KernelHeap.Allocator.constructor | kernel/heap.c:126-165 | one free block over the initial pages |
| KernelHeap.Allocator.Search | kernel/heap.c:176-215 | the list walk finds the first block that fits by address, and never a corrupt header |
| KernelHeap.Allocator.Take | kernel/heap.c:186-210 | the header writes split the block as specified |
| KernelHeap.Allocator.Grow | kernel/heap.c:86-122 | refused if and only if the limit or the granted frames do not suffice; otherwise one free block at the old end |
| KernelHeap.Allocator.Kmalloc | kernel/heap.c:167-239 | the linked headers in memory go through the specified step, with the recursion at most one deep |
| KernelHeap.Allocator.Kfree | kernel/heap.c:241-282 | the linked headers in memory go through the specified step for every address, merging with a free successor; what that makes available is HeapSpec.FreeServes |
| KernelHeap.Allocator.Release | kernel/heap.c:262-281 | the header writes free the block and merge it with a free successor, the last block of the heap included |
| Elf.FillPage | kernel/elf.c:83-93 | each byte of a page is the file byte its address asks for, or zero |
| Elf.LoadPage | kernel/elf.c:75-97 | one page at any address reads as specified through the page tables, in a new user page that user mode is let through to; other pages are unchanged, and other address spaces follow exactly where they share the tables; refused only when no frame is left |
| Elf.LoadSegment | kernel/elf.c:57-97 | every byte of the segment's pages reads as specified when they differ modulo 2^48, every page is a new page open to user mode, nothing outside them changes; refused only when no frame is left |
| Elf.LoadSegments | kernel/elf.c:52-98 | segments whose pages differ modulo 2^48 are all in place together, and pages outside the segments keep their translations; -5 only when a segment lies outside the file, other refusals only when no frame is left |
| Elf.Load | kernel/elf.c:12-105 | an accepted header with segments inside the file loads unless the frames run out, and only then; every segment byte reads back and the rest of its pages is zero; the active tables are restored; the lower halves of other address spaces never change, and all of them is unchanged if and only if none shares the tables of a segment page |
| Elf.Validate | kernel/elf.c:13-43 | each refusal before any mapping, with the exact condition for its code |
| Elf.LoadImage | kernel/elf.c:12-105 | the same for the bytes of an image, with header and program headers decoded from them, wherever the table lies inside the image; each code under its own condition |
| ElfImage.PhdrReadBack | kernel/elf.h:32-41 | a program header packed field by field, in the order and widths of the structure, is read back |
| ElfImage.HeaderReadBack | kernel/elf.h:15-30 | so is the file header, with the place and number of the program headers |
| ElfImage.PackedReadBack | kernel/elf.c:45-60 | from a packed image the loader reads the header and the list of program headers it was packed from, for every list and every gap in front of it |
| ElfImage.CoversIff | kernel/elf.c:68-70 | the pages the loader goes through are exactly those the segment's memory has a part in, or its address when it has none |
| ElfImage.PlacedIsInMemory | kernel/elf.c:75-97 | byte j of the file part reads as byte p_offset + j of the file at p_vaddr + j, and every other byte of those pages reads zero |
| ElfImage.LoadPacked | kernel/elf.c:12-105 | a packed image is loaded if and only if it is signed, identified and holds its segments, unless the frames run out; its pages are then new and open to user mode and every segment is in memory as its program header says; each refusal has its code |
| Elf.OthersKeepLower | kernel/elf.c:75-97 | whatever is loaded, lower halves of other address spaces keep their translations |
| Elf.OthersSameIff | kernel/elf.c:75-97 | for any outcome, other address spaces are left alone if and only if no kernel page they share changed |
| Elf.OthersSameExactly | kernel/elf.c:75-97 | after a complete load over pages that were not open to user programs, other address spaces are unchanged if and only if none shares the tables of a segment page |
| Elf.WindowKeptIff | kernel/elf.c:83-96 | a complete load leaves a frame where the kernel, and no user program, reaches it if and only if no segment page lies there |
| Elf.WindowLostByOthers | kernel/elf.c:83-96 | otherwise the frame is lost as well in the address spaces that share the tables |
| Elf.SegmentOverWindow | kernel/elf.c:83-96 | a segment of one task over the direct map of another's root: neither address space shows that root there any more |
| Elf.LowerImageIsPrivate | kernel/elf.c:75-97 | an image without pages in the kernel half leaves every other address space alone |
| Elf.SeenByOthers | kernel/task.c:129-131 | where another address space shares the tables it reads the loaded bytes |
| Elf.OpenToOthers | kernel/vmm.c:76-79 | user programs of another address space that shares the tables reach the loaded page if and only if its own top-level entry has the user bit |
| Elf.UpperPageIsSeen | kernel/task.c:129-131 | two address spaces in which a page mapped in the kernel half of one appears in the other |
| Elf.UpperSegmentIsSeen | kernel/elf.c:75-97 | a segment of one page in the kernel half is read through the other address space, which mapped nothing there before |
| Tasks.LeafOwner | kernel/task.c:103-165 | what a lower-half address maps to is a page of that address space, reached through its own tables |
| Tasks.TablesDisjoint | kernel/task.c:103-165 | lower-half tables of two address spaces, or of one for two paths, are different frames at every level, whatever is mapped below them |
| Tasks.PageIsNoTable | kernel/task.c:103-165 | a lower-half page is no table of any address space at any level, and no root |
| Tasks.PagesDisjoint | kernel/task.c:103-165 | lower-half pages of two address spaces are different frames |
| Tasks.SpacesDisjoint | kernel/task.c:103-165 | two address spaces have no lower-half frame in common: no two tables of any level, no two pages, no table and page |
| Tasks.BuildRoot | kernel/task.c:125-131 | an empty lower half and a copy of the kernel half |
| Tasks.NewRoot | kernel/task.c:103-133 | a new root shows the kernel above and nothing below, changes no translation and takes one frame; refused if and only if no frame is free, and then nothing changes |
| Tasks.DropRoot | kernel/task.c:137-139 | giving a root back keeps the remaining tables an unaliased tree and makes its frame free again |
| Tasks.MapStack | kernel/task.c:135-165 | exactly the stack page appears in the new space, in a frame of its own and open to user mode; refused if and only if no frame is free |
| Tasks.BuildSpace | kernel/task.c:102-165 | a complete new address space, or none and every frame free again, which is if and only if fewer than two frames are free; every older translation is unchanged |
| Tasks.FinishSpace | kernel/task.c:135-165 | the stack of a new space, or its root given back if and only if no frame is left for it |
| Tasks.Kernel.AllocSlot | kernel/task.c:33-43 | the first unused slot, with the next number modulo 2^32; -1 if and only if all are used |
| Tasks.Kernel.Get | kernel/task.c:188-195 | the first live slot with that number; -1 if and only if there is none |
| Tasks.Kernel.CreateUser | kernel/task.c:75-184 | a ready task with an address space of its own; refused if and only if the table is full, a heap allocation failed or fewer than two frames are free, and then no role and no frame is taken; no translation of an existing space changes, and the direct map stays intact |
| Tasks.Kernel.LoadElf | kernel/elf.c:12-105 | loading any image into one live task keeps the lower halves of the other tasks and the contents of all pages that were there, and succeeds for an accepted image inside the file unless the frames run out; an image clear of the kernel's own pages leaves them, and the direct map, intact in every address space |
| Tasks.Kernel.TasksSeparate | kernel/task.c:103-165 | while the direct map is intact, live tasks have no lower-half frame in common, tables of all levels and pages |
| Tasks.Serve | kernel/task.c:75-184 | any run of task creations and loads of images clear of the kernel's own pages keeps the direct map intact and live tasks apart; it ends early only when no frame is left |
| Tasks.Boot | kernel/vmm.c:164-211 | from the memory map to a kernel without tasks whose direct map is intact, the state all runs start from; none only when memory, room for the bitmap or frames are lacking |
| Tasks.BootTables | kernel/vmm.c:184-211 | the first root, the direct map and the kernel over them, or no frame left |
| DirectMap.MapWindow | kernel/vmm.c:195-211 | afterwards every frame of the memory map is shown at its place, and nothing that was there is disturbed; stops only when no frame is left for tables |
| DirectMap.ClearLoadKeepsReserved | kernel/elf.c:75-97 | a load clear of the kernel's own pages changes their translation in no address space |
| DirectMap.ShownKept | kernel/elf.c:75-97 | such a step keeps the direct map in every address space |
| DirectMap.ShownGrows | kernel/task.c:125-131 | a new root that shows the kernel half of an old one shows the direct map |
| RingSpec.Produce | kernel/xhci.c:99-117 | stamping the producer's phase into the next slot appends to the queue the ring stands for |
| RingSpec.Consume | kernel/xhci.c:121-147 | the phase test succeeds if and only if the queue is not empty, and then shows its head |
| Xhci.EnqueueAppends | kernel/xhci.c:99-117 | with fewer than 63 outstanding, an enqueue with Link handling appends |
| Xhci.FetchTakesHead | kernel/xhci_trb.h:85-100 | the controller sees the head of the queue, or nothing if it is empty, across the Link and its toggle |
| Xhci.WaitingAtLink | kernel/xhci.c:99-117 | the Link shows a waiting controller's phase if and only if fewer than 63 are outstanding |
| Xhci.RingIsQueue | kernel/xhci.c:99-117 | any paced run of enqueues and fetches gives what an unbounded queue gives, for a controller that follows the Link with the entry before it |
| Xhci.LazyTakesHead | kernel/xhci_trb.h:85-100 | a controller that waits in front of the Link takes the head of the queue unless 63 are outstanding there |
| Xhci.LazyIsQueueIff | kernel/xhci.c:99-117 | such a controller gives what an unbounded queue gives in exactly the runs where it never reads in front of the Link with 63 outstanding |
| Xhci.LazyIsQueue | kernel/xhci.c:99-117 | with at most 62 outstanding it always does |
| Xhci.LazyFails | kernel/xhci.c:99-117 | a paced run from a fresh ring in which it reads nothing although 63 are waiting |
| Xhci.DriverRing.constructor | kernel/xhci_trb.h:85-100 | a fresh ring stands for the empty queue, with the Link in the last slot |
| Xhci.DriverRing.RingEnqueue | kernel/xhci.c:99-117 | the slot writes, the Link's phase and the wrap are those of the specification |
| Xhci.SeenIsHead | kernel/xhci.c:121-147 | the consumer of the link-free ring sees the fields of the oldest event |
| Xhci.InfoOfEvent | kernel/xhci.c:126-128 | type, completion code and slot are read where section 6.4.2 of the xHCI specification puts them, whatever the other fields hold |
| Xhci.EventRingIsQueue | kernel/xhci.c:121-147 | any paced run of posts and consumptions gives what an unbounded queue gives |
| Xhci.EventRing.ConsumeEvent | kernel/xhci.c:121-147 | reports and moves on exactly when the phase matches, toggling at the wrap |
| Xhci.PostAppends | kernel/xhci.c:121-147 | a controller that posts with its phase appends to the queue, up to 64 outstanding |
| SchedSpec.NextIsNotBeyond | kernel/sched.c:73-81 | the next ready task is never further round than any other ready task, and passing it shortens the distance by its own |
| SchedSpec.StepKeepsInv | kernel/sched.c:144-221 | every event keeps the scheduler invariant |
| SchedSpec.OnlyCurrentRuns | kernel/sched.c:144-221 | after every run of ticks, yields, blocks and unblocks no task but the current one is RUNNING |
| SchedSpec.StepShortensWait | kernel/sched.c:144-221 | no event lengthens the wait of a ready task, and a tick shortens it |
| SchedSpec.WaitIsEnough | kernel/sched.c:144-221 | as many ticks as the wait measure bring it to the processor |
| SchedSpec.BoundedWaiting | kernel/sched.c:144-221 | a ready task at cyclic distance d runs within 10 d ticks under any mix of events that does not block it |
| SchedSpec.YieldMeans | kernel/sched.c:185-204 | with another ready task the nearest runs with ten ticks and the old one is ready, nothing else changes; without one nothing changes |
| SchedSpec.QuantumIsUsed | kernel/sched.c:144-181 | a task keeps the processor for exactly the ticks it has left; the last hands over as a yield does, or starts ten new ticks when nobody else is ready |
| SchedSpec.UnblockedRuns | kernel/sched.c:217-221 | an unblocked task at cyclic distance d is ready and runs within 10 d ticks; unblocking any other task does nothing |
| SchedSpec.BlockedStaysOff | kernel/sched.c:144-215 | a blocked task that is not the current one stays off the processor, and blocked, through every run that does not unblock it |
| SchedSpec.SelfBlock | kernel/sched.c:208-215 | a task that blocks itself is ready again when another task was ready, and keeps the processor otherwise |
| SchedSpec.BlockHoldsIff | kernel/sched.c:208-215 | blocking keeps a task off the processor until it is unblocked if and only if it is not the current one |
| SchedSpec.SelfBlockExample | kernel/sched.c:196-215 | two tasks: the first blocks itself and runs again after ten ticks |
| Sched.Scheduler.Add | kernel/sched.c:40-48 | appends up to the queue size |
| Sched.Scheduler.NextReady | kernel/sched.c:73-81 | the modular search finds the first ready task round the queue, else the current one |
| Sched.Scheduler.IdxOf | kernel/sched.c:83-87 | the index of a queued task |
| Sched.Scheduler.SwitchToTask | kernel/sched.c:162-180 | the outgoing task becomes ready, the incoming one running with a full quantum |
| Sched.Scheduler.Tick | kernel/sched.c:144-181 | the specified step, with preemption at the end of a quantum; nothing before the start |
| Sched.Scheduler.Yield | kernel/sched.c:185-204 | the specified step; nothing before the start |
| Sched.Scheduler.Block | kernel/sched.c:208-215 | the specified step, with a yield when the current task blocks itself |
| Sched.Scheduler.Unblock | kernel/sched.c:217-221 | a blocked task becomes ready, any other is left alone, as specified |
| Sched.Scheduler.Start | kernel/sched.c:91-140 | establishes the scheduler invariant, hands the first user task ten ticks when it is ready, and leaves the others as they were |
| CapSpec.ApplyKeepsAuthority | kernel/cap.c:60-190 | create, derive, free and revoke keep every slot within the rights its endpoint was made with |
| CapSpec.EndpointsOnlyAge | kernel/endpoint.c:11-16 | generations never go down and an endpoint's original rights never change |
| CapSpec.RightsNeverGrow | kernel/cap.c:107-165 | over every run, every slot of an endpoint carries a subset of the rights it was made with |
| CapSpec.RevokedForever | kernel/cap.c:71-190 | once revoked, no slot of any table passes the lookup for that endpoint after any run |
| CapSpec.RevokeMakesStale | kernel/cap.c:169-190 | revocation succeeds and ages the endpoint; its slots pass the lookup if and only if it was never revoked |
| CapSpec.GrantsIffCovers | kernel/cap.c:97-99 | the mask test asks for every single right by itself |
| CapSpec.LookupOkIff | kernel/cap.c:71-103 | a lookup succeeds if and only if the slot is of the kind asked for, its endpoint was not revoked since, and it holds every single right asked for |
| CapSpec.LookupsStayWithin | kernel/cap.c:71-190 | after every run, a lookup that succeeds asks for no right that its endpoint was not made with |
| CapSpec.BirthIsForGood | kernel/cap.c:145-165 | the rights an endpoint was made with are not rewritten by any run |
| CapSpec.CreateSeen | kernel/cap.c:145-165 | creation succeeds if and only if the slot is free and the pool has an endpoint; later lookups there succeed for exactly the rights asked for, and no other lookup changes |
| CapSpec.DeriveSeen | kernel/cap.c:107-141 | derivation succeeds if and only if a lookup of the source for those rights would, and the target is free; later lookups there succeed for exactly those rights, and no other lookup changes |
| CapSpec.FreeSeen | kernel/cap.c:60-67 | a freed slot answers that it is empty, and no other lookup changes |
| CapSpec.RevokeSeen | kernel/cap.c:169-190 | revocation through one slot makes the lookups of all slots of its endpoint stale, in every table, and changes no other lookup |
| CapSpec.BootAuthority | kernel/cap.c:27-46 | holds at the start |
| CapEngine.Engine.TableInit | kernel/cap.c:39-46 | an empty table, the others untouched |
| CapEngine.Engine.FreeSlotAt | kernel/cap.c:60-67 | empties that slot, changes no lookup elsewhere, with its error case |
| CapEngine.Engine.PoolAlloc | kernel/cap.c:27-35 | the first unused endpoint, or none when all are used |
| CapEngine.Engine.AllocSlot | kernel/cap.c:50-56 | the first null slot; -1 if and only if there is none |
| CapEngine.Engine.CheckSlot | kernel/cap.c:71-103 | success if and only if kind, generation and every single right are in order; each error under its own condition |
| CapEngine.Engine.EndpointCreate | kernel/cap.c:145-165 | the specified operation, recording the rights of the new endpoint; lookups in the slot then succeed for exactly those rights, and no other lookup changes |
| CapEngine.Engine.CapDerive | kernel/cap.c:107-141 | the specified operation with each refusal; lookups in the new slot succeed for exactly the rights asked for, all of them rights of the source, and no other lookup changes |
| CapEngine.Engine.RevokeEndpoint | kernel/cap.c:169-190 | the specified operation |
| CapEngine.Engine.CapSend | kernel/cap.c:194-241 | the lookup's error, or the specified rendezvous on that endpoint and no other; success only with the send right in the slot and in the endpoint from its creation on |
| CapEngine.Engine.CapRecv | kernel/cap.c:245-290 | the lookup's error, or the specified rendezvous on that endpoint and no other; success only with the receive right in the slot and in the endpoint from its creation on |
| IpcSpec.StepKeepsChannel | kernel/cap.c:194-290 | each event keeps sends minus receives at +1, 0 or -1 as the state says; on delivery, and only then, whoever parked is woken; whoever finds nobody waiting is blocked; errors exactly when a party of the same side waits |
| IpcSpec.ExactlyOnceFifo | kernel/cap.c:194-290 | over every run of allowed events the i-th completed receive got the i-th message sent |
| IpcSpec.EveryChannelIsFifo | kernel/cap.c:194-290 | over any run on all endpoints at once, with deliveries at one as stores for the others and revocations in between, every endpoint not revoked delivers exactly once and in order |
| IpcSpec.NetStepKeepsChannels | kernel/cap.c:194-290 | each event keeps the channel of every endpoint not revoked |
| IpcSpec.FreshChannel | kernel/endpoint.c:3-9 | a new endpoint starts as an empty channel |
| AesBytes.GaloisMul | kernel/aes.c:62-72 | the loop computes the product in GF(2^8) |
| AesBytes.MulXor4 | kernel/aes.c:62-72 | the product distributes over a sum of four terms |
| AesBytes.SboxInverse | kernel/aes.c:5-42 | the inverse table undoes the table |
| AesBytes.InvSboxInverse | kernel/aes.c:5-42 | the table undoes the inverse table |
| AesBytes.SboxIsAffineInverse | kernel/aes.c:5-22 | the table is the affine map of section 5.1.1 of FIPS 197 applied to the multiplicative inverse, with zero for zero |
| AesBytes.UnaffineUndoes | kernel/aes.c:5-22 | the affine map and its inverse undo each other |
| AesSpec.RconIsPower | kernel/aes.c:45-48 | the round constants are the powers of x |
| AesSpec.ExpandIsStandard | kernel/aes.c:75-95 | the expansion is the one schedule that satisfies section 5.2 of FIPS 197 byte by byte: key bytes, then rotated and substituted bytes with the power of x, substituted bytes, or plain sums |
| AesExample.Example | kernel/aes.c:75-255 | appendix C.3 of FIPS 197: its key and plaintext give its ciphertext, which decrypts to the plaintext |
| AesSpec.SubBytesUndone | kernel/aes.c:112-162 | the inverse substitution undoes the substitution |
| AesSpec.ShiftRowsUndone | kernel/aes.c:120-185 | the inverse rotation undoes the rotation |
| AesSpec.MixColumnsUndone | kernel/aes.c:143-198 | the inverse matrix undoes the matrix on every column |
| AesSpec.InvMixColumnsUndone | kernel/aes.c:143-198 | and the matrix undoes the inverse matrix |
| AesSpec.AddRoundKeyUndone | kernel/aes.c:102-110 | adding a round key twice changes nothing |
| AesSpec.InvRoundsRetrace | kernel/aes.c:229-255 | decryption passes through the states of encryption in reverse |
| AesSpec.DecryptUndoesEncrypt | kernel/aes.c:201-255 | decryption undoes encryption for every block under every expanded key |
| AesSpec.EncryptUndoesDecrypt | kernel/aes.c:201-255 | encryption undoes decryption, so both are permutations of the blocks |
| Aes.ExpandKey | kernel/aes.c:75-95 | the loop fills the array with the schedule of section 5.2 of FIPS 197, byte by byte from the S-box and the powers of x |
| Aes.ApplyRoundKey | kernel/aes.c:102-110 | in place, the round key added |
| Aes.SubstituteBytes | kernel/aes.c:112-118 | in place, every byte substituted |
| Aes.UnsubstituteBytes | kernel/aes.c:156-162 | in place, every byte substituted back |
| Aes.RotateRows | kernel/aes.c:120-141 | the moves through one temporary rotate row r left by r |
| Aes.UnrotateRows | kernel/aes.c:164-185 | the moves rotate row r right by r |
| Aes.MixColumnsInPlace | kernel/aes.c:143-154 | in place, every column mixed |
| Aes.UnmixColumnsInPlace | kernel/aes.c:187-198 | in place, every column mixed back |
| Aes.EncryptBlock | kernel/aes.c:201-227 | the fourteen rounds in place, also when both buffers are one |
| Aes.DecryptBlock | kernel/aes.c:229-255 | the inverse rounds in place, also when both buffers are one |
| XtsSpec.SectorRoundTrip | kernel/xts.c:15-69 | decrypting an encrypted sector gives it back, for every 512-bit key, sector number and sector |
| XtsSpec.SectorRestored | kernel/xts.c:15-69 | encrypting a decrypted sector gives it back, so sector encryption is a permutation |
| XtsSpec.PartsUndone | kernel/xts.c:23-68 | block by block along the tweak chain |
| XtsSpec.DoubleIsTimesX | kernel/xts.c:9-13 | doubling a tweak multiplies it by x modulo x^128 + x^7 + x^2 + x + 1, coefficient by coefficient |
| XtsSpec.SectorIsStandard | kernel/xts.c:15-41 | the first tweak is the little-endian sector number under the second half of the key, each further one the double of the one before, and each block is enciphered under the first half between two additions of its tweak |
| Xts.AlphaDoubles | kernel/xts.c:9-13 | the word arithmetic is the bytewise multiplication by alpha of IEEE 1619 |
| Xts.GfMulAlpha | kernel/xts.c:9-13 | the tweak pair is doubled in place |
| Xts.Init | kernel/xts.c:4-7 | the two halves of the key expanded |
| Xts.Encipher | kernel/xts.c:15-41 | the sector encrypted, also in place |
| Xts.Decipher | kernel/xts.c:43-69 | the sector decrypted, also in place |
| Xts.InPlace | kernel/xts.c:4-69 | enciphering and deciphering one buffer leaves it as it was, for every key |
| GhashField.ProductXorLeft | kernel/gcm.c:9-35 | the product of section 6.3 of NIST SP 800-38D is linear on the left |
| GhashField.ProductXorRight | kernel/gcm.c:9-35 | and on the right |
| GhashField.ProductOne | kernel/gcm.c:9-35 | it has a unit |
| GhashField.ProductCommutes | kernel/gcm.c:9-35 | it is commutative |
| GhashField.ProductAssociates | kernel/gcm.c:9-35 | it is associative |
| GhashField.PowersMultiply | kernel/gcm.c:9-35 | powers of x multiply by adding exponents and x^128 is 1 + x + x^2 + x^7, which with linearity is all of the product |
| GcmSpec.GhashXor | kernel/gcm.c:38-88 | the hash of a sum of strings is the sum of their hashes |
| GcmSpec.GhashIsPolynomial | kernel/gcm.c:38-88 | the hash is the polynomial in the hash key with the blocks as coefficients |
| GcmSpec.HashedIsStandard | kernel/gcm.c:38-88 | what is hashed is data and ciphertext, each filled up with the fewest zeros to whole blocks, and their bit lengths |
| GcmSpec.CtrIsStandard | kernel/gcm.c:113-130 | the counter blocks are the nonce with 2 and then one more each, modulo 2^32, and each byte of text is added to a byte of an enciphered counter block |
| GcmSpec.TagIsStandard | kernel/gcm.c:132-138 | the tag is that polynomial added to the enciphered nonce with 1 |
| GcmSpec.TagsDifferByHash | kernel/gcm.c:107-138 | two tags under one nonce differ by the hash of the difference, without the cipher |
| GcmSpec.OpenUndoesSeal | kernel/gcm.c:107-177 | what was sealed opens to the plaintext with its tag, and with no other |
| GcmSpec.TagOfPlaintext | kernel/gcm.c:165-176 | the tag of the ciphertext fits the plaintext if and only if their difference hashes to zero |
| GcmSpec.InPlaceOneBlock | kernel/gcm.c:165-176 | under a hash key with an inverse, the tag of one block fits in place if and only if the cipher leaves the block as it is |
| GcmSpec.InPlaceFails | kernel/gcm.c:165-176 | with every key whose hash key has an inverse, every block is refused in place under one at least of any two nonces |
| GcmSpec.CtrUndone | kernel/gcm.c:120-164 | counter mode is its own inverse at every length |
| Gcm.StepV | kernel/gcm.c:23-33 | the bytewise shift with carry and reduction is one step of the bit string |
| Gcm.GhashMultiply | kernel/gcm.c:9-35 | the byte loops compute the 128-bit product in place |
| Gcm.GhashOf | kernel/gcm.c:38-88 | the hash of padded data, padded text and the two bit lengths, for every length |
| Gcm.IncCounter | kernel/gcm.c:91-96 | the bytewise carry adds one modulo 2^32 to the last four bytes |
| Gcm.CounterLoop | kernel/gcm.c:120-130 | the text under the key stream, for every length, also in place |
| Gcm.Init | kernel/gcm.c:100-105 | the schedule and the hash key |
| Gcm.Seal | kernel/gcm.c:107-138 | ciphertext and tag of section 7.1 of NIST SP 800-38D |
| Gcm.Unseal | kernel/gcm.c:140-177 | status 0 if and only if the tag is that of the ciphertext buffer; the plaintext is written either way |
| Gcm.SealThenUnseal | kernel/gcm.c:100-177 | status 0 and the plaintext back, for every key, nonce, data and text |
| Gcm.SealThenUnsealInPlace | kernel/gcm.c:100-177 | in place the text comes back, and status is 0 if and only if the difference of ciphertext and plaintext hashes to zero |
| BigEndian.WideDigits | kernel/crypto.c:139-152 | a number fits its low bytes if and only if the bytes above them are zero |
| BigEndian.ValueOfDigits | kernel/crypto.c:139-152 | the bytes written for a number that fits them stand for that number |
| Sha512Spec.GapIsLeast | kernel/crypto.c:125-137 | the zero bytes are the fewest that give whole blocks |
| Sha512Spec.PaddingIsStandard | kernel/crypto.c:122-152 | the padding is that of section 5.1.2 of FIPS 180-4 if and only if the message is under 2^61 bytes |
| Sha512Spec.FoldPrefix | kernel/crypto.c:108-119 | what is compressed does not depend on what follows |
| Sha512Example.AbcDigest | kernel/crypto.c:8-164 | the digest of "abc" is that of the standard, through every word of the schedule and all eighty rounds |
| Sha512.ActiveOf | kernel/crypto.c:110-110 | the buffer position is right even after the bit counter has wrapped |
| Sha512.Transform | kernel/crypto.c:42-92 | the unrolled state is one application of the compression function |
| Sha512.Context.Init | kernel/crypto.c:95-105 | the empty message |
| Sha512.Context.Update | kernel/crypto.c:108-119 | for every cut of a message the state is the fold over its complete blocks and the buffer holds the rest |
| Sha512.Context.Final | kernel/crypto.c:122-164 | the digest of everything taken in |
| Sha512.HashBuffer | kernel/crypto.c:167-172 | one update is enough |
| Sha512.HashJoined | kernel/crypto.c:197-206 | two updates give the digest of the two buffers joined |
| Hkdf.HmacSha512 | kernel/crypto.c:175-207 | the construction of RFC 2104, hashing long keys first, with the result buffer reused as input |
| Hkdf.HmacIsStandard | kernel/crypto.c:175-207 | section 2 of RFC 2104 in its own words: which block the key becomes, what is added to it, and what is hashed in which order |
| Hkdf.Extract | kernel/crypto.c:210-218 | HMAC with a missing salt taken as zeros |
| Hkdf.Expand | kernel/crypto.c:221-251 | the output of RFC 5869 for the first 128 bytes of the context string, for every length; bytes after it untouched |
| Hkdf.NextBlock | kernel/crypto.c:221-251 | section 2.3 of RFC 5869: the first block of output is the code of context and 1, every further one that of the block before, the context and its number |
| Hkdf.ExpandedGrows | kernel/crypto.c:221-251 | a longer output begins with every shorter one |
| Hkdf.LongContextsCollide | kernel/crypto.c:234-238 | context strings that agree on 128 bytes derive the same key |
| UsbImage.FatSize | make_usb_img.py:20-31 | the sizing loop settles on 128 sectors, which hold an entry for every cluster there is room for |
| UsbImage.MakeBpb | make_usb_img.py:34-63 | every field of the boot sector |
| UsbImage.BuildFat | make_usb_img.py:69-79 | every entry of the table: one chain from cluster 3, zeros elsewhere |
| UsbImage.MakeDirent | make_usb_img.py:82-92 | name, attribute, cluster and size of an entry |
| UsbImage.BuildImage | make_usb_img.py:95-133 | the complete layout, for every file that fits the data area |
| Fat32Spec.ScanMatches | kernel/fat32.c:164-177 | a match is the first live entry of that name, with no end mark before it |
| Fat32Spec.ScanCompletes | kernel/fat32.c:164-177 | and such an entry is always found |
| Fat32Spec.PathMatchesEntry | kernel/fat32.c:128-144 | every path of an eight-and-three name is looked up by the bytes the builder writes for it |
| Fat32.PathTo83 | kernel/fat32.c:128-144 | the two loops give the eleven bytes of the name |
| Fat32.Volume.Init | kernel/fat32.c:101-124 | mounts if and only if the boot sector is readable and of the supported kind, with its parameters |
| Fat32.Volume.FatNext | kernel/fat32.c:86-94 | the masked table entry, or the end mark when the sector cannot be read |
| Fat32.Volume.ReadCluster | kernel/fat32.c:193-200 | the bytes of a cluster's sectors up to the length asked for, stopping at the first failure |
| Fat32.Volume.Read | kernel/fat32.c:186-204 | the bytes along the chain, and no byte beyond the length asked for |
| Fat32.Volume.ScanBuffer | kernel/fat32.c:163-177 | the search of one sector |
| Fat32.Volume.NameIs | kernel/fat32.c:146-150 | compares eleven bytes |
| Fat32.Volume.Open | kernel/fat32.c:153-183 | the search along the directory chain, for every disk on which it comes to an end |
| Fat32.FileSystem.Open | kernel/vfs.c:16-27 | a valid node exactly when the reader finds the name |
| Fat32.FileSystem.Read | kernel/vfs.c:29-33 | no more than the node's size, and nothing from an invalid node |
| FatRoundTrip.ImageMounts | kernel/fat32.c:101-124 | every built image mounts with the builder's layout |
| FatRoundTrip.NextInImage | make_usb_img.py:69-79 | the reader finds the builder's entry for every cluster |
| FatRoundTrip.ChainBytes | kernel/fat32.c:186-204 | reading the file's chain from any of its clusters gives the file from there on |
| FatRoundTrip.ImageFinds | kernel/fat32.c:153-183 | the search finds the file under its name and reports every other name missing |
| FatRoundTrip.BuildMountRead | make_usb_img.py:95-133 | build, mount, open and read: found exactly under paths for INIT.ELF, at cluster 3, with its length and its bytes, for every file that fits and every read length |
| FatVolume.VolumeMounts | kernel/fat32.c:101-124 | every volume whose boot sector has the fields of the FAT specification mounts with them, for every cluster size and every number and size of tables |
| FatVolume.NextIsLink | kernel/fat32.c:86-94 | the reader finds the table entry of every cluster, without its upper four bits |
| FatVolume.ChainReads | kernel/fat32.c:186-204 | a file along any chain of clusters, however scattered, reads as their contents one after another, up to the length asked for or the end of the chain |
| FatVolume.DirectoryAnswers | kernel/fat32.c:153-183 | the search of a directory along any chain comes to an end and says of all its entries what it must: the first one in use, not deleted, no long name and no label, with that name and in front of any end mark, or that there is none |
| FatVolume.OpenThenRead | kernel/fat32.c:153-204 | a file named in the root directory of any volume is found there and its first size bytes are read |

## Left out

- Device access and machine code: MMIO, PCI, port I/O, TLB and CR3 loads, interrupt set-up, `task_switch`; a context switch is one change of the current task.
- Screens, shells, keyboard, logging, the built-in self-tests, and the embedded program image.
- Placeholders and thin layers: post-quantum signatures, the manifest, TPM, FIDO2, the random generator (an arbitrary choice here), TCP (its handshake is simulated), Merkle tree and snapshots.
- The 516-byte block structure of the ORAM goes through 512-byte sectors in the source; the model stores whole records. `oram_init` in the middle of a run discards the stash and is not modelled.
- Oram.Store.Access: the sizes are symbolic, so the constants 6, 4 and 64 of the source are one instance; saving the position map is one assignment.
- Pmm.Init: asks that no memory-map entry wraps around 2^64 and that usable memory is absent or reaches past one page; otherwise the source writes outside an empty bitmap.
- Vmm.Machine.MapPage: entries are decoded words; that decoding is `Pte.MapWordIsEntry`, `Pte.LinkWord` and `Pte.OrUserWord`. A frame is seen as a table or as bytes, never both, which the unaliased-tree invariant justifies. Two-megabyte pages are not modelled.
- Vmm.Machine.VirtToPhys: inside the 64 GiB direct-map window the source ignores the tables, and so does the contract.
- KernelHeap.Allocator.Kfree: the header map holds what the allocator wrote, so payload bytes that look like a header, and reads below address 32, are not captured; the same holds for HeapSpec.FreeStep.
- KernelHeap.Allocator.Grow: pages mapped before a refusal half-way stay mapped in the source and are not modelled.
- KernelHeap.Allocator.Kmalloc: sizes are unbounded numbers, so wrap-around of requests near 2^64 is not captured; `kcalloc` and the heap dump are left out.
- Elf.Load: segments must not wrap around 2^64; the exact contents are stated for segments whose pages differ modulo 2^48.
- ElfImage.LoadPacked: is about images whose table of program headers starts behind the header; Elf.LoadImage takes any place inside the image.
- Elf.LoadImage: asks that the table of program headers lies inside the image; the source reads it without looking.
- Tasks.Boot: physical memory and its direct map must fit the kernel half; the kernel image, framebuffer and stack mappings of `vmm_init` are not made, only kept out of the way as reserved pages.
- Tasks.Kernel.LoadElf: for an image over the direct map the contract describes the tables frame by frame, which is no longer what the code writes from that page on.
- GcmSpec.InPlaceFails: that every hash key but zero has an inverse is not shown.
- Tasks.Kernel.CreateUser: registers and the kernel stack contents are not modelled, only the outcome of their allocation.
- Xhci.RingIsQueue: doorbells and timeouts are left out.
- SchedSpec.OnlyCurrentRuns: does not say that the current task is RUNNING, which it is not after it blocked itself with nobody else ready. `sched_set_tasks` is left out.
- CapSpec.RevokedForever: generations are unbounded, so wrap-around of the 64-bit counter is not captured. A revoked endpoint does not wake whoever waits on it, in the source or here. Pool export and import are left out.
- CapEngine.Engine.CapSend: asks for a message buffer that is not null, as does CapEngine.Engine.CapRecv; waking and blocking appear as the numbers of those to wake and to block.
- IpcSpec.ExactlyOnceFifo: is about buffers that are not null and not overwritten while a message waits in them, as is IpcSpec.EveryChannelIsFifo.
- AesSpec.DecryptUndoesEncrypt: side channels are outside the model.
- Sha512Spec.FoldPrefix: the eighty constants of SHA-512 are taken as the source lists them; `Sha512Example.AbcDigest` uses each of them, but their origin in cube roots is not shown.
- Hkdf.Expand: the counter is one byte, so outputs over 255 blocks repeat counters as in the source.
- Fat32.Volume.Open: asks that the search comes to an end, which a cyclic directory chain would not.
- FatVolume.ChainReads: is about volumes of whole sectors whose sector numbers fit 32 bits, and chains that lie inside the device and end in an end mark.
- Fat32.Volume.Read: asks that a mounted volume has at least one sector a cluster; with none the source follows the chain without reading.
- UsbImage.BuildImage: files larger than the data area, which make the Python slice grow the image, are outside it.
