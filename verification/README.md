# The Urbit runtime core, in Dafny

The Urbit runtime keeps its whole state as *nouns* (an atom, or a cell of two
nouns) in one large memory, the loom. This project models the five parts of
`vere/pkg/noun` that keep that state right, and the warm-state rebuild that
follows a boot, and proves what each part is for. Every proof is in Dafny;
`dafny verify dfyconfig.toml` checks all of it.

## What is modelled

**Nock, compiled** (`Nouns`, `NockSpec`, `NockComp`, `NockAsm`, `NockMachine`,
`NockGuard`, `NockForward`, `NockBackward`, `NockBytes`, `NockFits`, `NockCorrect`,
`NockEmit`, `NockLayout`). `NockSpec.Nock` is the reduction rules of Nock 4K,
opcodes 0 to 11, and is the reference. `NockComp.Comp` is the compiler, with its
keep/lose and tail modes; `NockAsm.Asm` the layout into bytes, back to front, with
skips of one, two or four bytes and table indices of one or two; `NockMachine.Exec`
what each instruction does to the road stack, where operands and call frames
lie one on another. `NockEmit` and `NockLayout` are the same compiler and
assembler in the form the source has them: an instruction list that is pushed to,
an array of sizes, a byte buffer filled from its end. The main theorem is
`NockCorrect.BurnExact`: bytecode yields a product exactly when the *guarded*
reductions do. A guard is a place where the source refuses to go on: a formula that
does not compile (or is too large to assemble), and the taken arm of a computed branch
when that arm is not a formula. `BurnSound` and `BurnComplete` then say what this
means for plain Nock: bytecode is never wrong, and it loses a product only where a
guard is met. `NockFits` says which programs are too large: those with more than 2^16
entries in a side table, and no formula of at most 2^14 nodes, so a guard that is met
names an arm that is no formula, a formula that does not compile, or a large one
(`NockCorrect.BurnOrFault`).

**Compaction** (`Bits`, `PackMap`, `PackWords`, `PackSeek`, `Refs`, `PackReloc`,
`PackMove`, `PackIso`, `PackHeap`). A page directory, chunk pages in ten sizes with their bitmaps,
the relocation map (a prefix popcount over kept pages, and per size class a frontier
that fills the previous page before it opens the next), the rewriting of every
reference reachable from the roots, and the sliding of pages and chunks down in
place. The main theorem is `PackIso.Compact`, over the memory words themselves:
each root denotes afterwards exactly the nouns it denoted before, and two roots
are the same word afterwards exactly when they were before.

**Reference counts, taking and editing** (`Heaps`, `Counts`, `Take`, `EditPath`,
`InPlace`, `Editing`). A heap is a table of boxes seen from one road, which sorts addresses into
senior, normal and junior. `Heaps.Sound` says that every count of the road equals the
references that boxes and roots make. `Counts.Memory.Lose` frees exactly what is no
longer reachable; `Take.TakeNoun` copies a noun out of a dying road, with its
own stack of frames and forwarding words in the mug slots; `Editing.EditNoun` replaces
a subtree, and says which cells it writes: those of the path, from the top, for as long
as nothing else refers to them, every cell from the first shared one on being new.
Both keep cached hashes right, whatever the hash function: a copy has the hash of what it
is a copy of, and a cell that is written has none.

**Snapshots** (`Snapshot`, `Saving`). The disk is an image and the two patch files,
each synced or not; `Crash` allows any unsynced file to be lost or torn. `Saving.Store`
carries out a save and a restart one disk write at a time and records every state
of the disk in `trace`.

**The hash table** (`Hamt`, `HamtOps`, `HamtTrim`, `HamtSweep`, `HamtTable`): 64 roots,
bitmapped nodes, buckets, the clock arm that cools and evicts. `HamtSweep.Steps` says
what one step of the clock does in terms of the entries alone: how far it looks, what it
cools or takes out there, and where it leaves the arm.

**The allocator** (`PageList`, `PageHeap`, `Chunks`, `Palloc`). `PageHeap.Pages` is the
directory and the free list of page runs, including a directory that outgrows its pages
and moves; `Chunks.Hunks` the pages that are cut up; `Palloc.Heap` both, with the three
calls that the rest of the runtime makes. Its table of live blocks, address by length,
changes by exactly one entry in each call, and blocks share no word. That table is the
program's for as long as the directory has room for its entries (`Pages.Roomy`), since
the program keeps them in pages of the same heap and the model does not: then no live
block has a word of them (`Palloc.EntriesOwn`), and each call says exactly when that
ends. `PackHeap` takes such a heap to the pages that compaction is given: they meet what
`PackIso.Compact` asks of them, and every live block is moved as a whole.

**Nested roads** (`Roads`) and the **warm-state rebuild** (`Ream`).

## Where the code and the plain statement differ

Each of these is stated of the code as it is.

- An untaken arm that kicks axis 0 (`[9 0 x]`) is accepted as a formula, and yet
  compiling it crashes, so a branch that has a product by the rules has none in
  bytecode. `NockGuard.UntakenKick` gives such a formula and
  `NockGuard.FormulaicCompiles` the exact condition.
- A hint whose tag is a cell is not a formula, so a *taken* arm that is one
  crashes where the rules have a product (`NockGuard.TakenHint`).
- `u3h_del` does not compare keys when it reaches a lone entry, so deleting an absent
  key can delete another (`HamtTable.DelAstray`); the contract of
  `HamtTable.Table.Del` says which key goes, and exactly when that is harmless.
- A clock step over an empty place returns a loobean that its callers read as an
  eviction, so the table's count drops with no entry gone, and a bounded table ends with
  more entries than its bound (`HamtTable.MissCounted`). The field `told` says whether a
  caller can tell a miss apart. When it can, `use` is the number of entries always, as a
  word, and the bound holds of the entries (`HamtTable.Table.PutGet`); when it cannot,
  `lost` counts the misses, and `use` holds the number of entries less those, and wraps.
- A first-fit run that starts at page 0 reads as "nothing found": the pages wanted are
  taken off it while they are still free, and the heap grows instead. It happens at
  most once, since page 0 is then on no list. `PageHeap.Pages.Alloc` says exactly when,
  and how many pages are lost; with none lost the free list names exactly the free
  pages, and with some it names all but those (`PageHeap.LostSpoils`).
  `PageHeap.PageZeroLost` gets there by two allocations: the directory fills its page,
  moves, and frees page 0.
- A directory that moves is sized without counting its own pages, so it can come out
  shorter than the heap; the entries past its end are then in the first words of the very
  pages that were asked for, and while it is short it does not move.
  `PageHeap.Pages.Alloc` gives the exact condition: the heap has to grow, the directory is
  too small for that, and the pages there and wanted, rounded up to whole pages of
  entries, leave fewer entries than the new directory has pages (`Pages.Short`).
  `PageHeap.DirectoryShort` gets there by one allocation. `Palloc.Heap.Imalloc` and
  `Palloc.Heap.Irealloc` carry the condition; freeing never brings it about.
- Asking for no words of a block of whole pages frees the block and returns its address
  as if it were live; any other request returns a live block (`Palloc.Heap.Irealloc`).
- Freeing a chunk can link its page out of order; `Chunks.LinkUnsorted` is an example.
  The list is a set of pages all the same (`Chunks.LinkIs`), and compaction, which
  needs it in order, sorts it.
- When the heap has grown and its last page is free, a save leaves the image file shorter
  than the process takes it to be; it has every page in use all the same. The file has
  the length that the patch says if and only if it does not have to grow or the last
  page is in the patch (`Snapshot.ReachesIs`, `Snapshot.ComposedWf`), and memory is at
  rest after the save under just that condition (`Saving.Store.Save`). The page
  allocator never leaves the last page of the heap free.
- A crash after the control file is unlinked and before the memory file is leaves the
  memory file behind; restart does not remove it, and the next save then fails to
  create its patch. The image is unharmed. `Saving.LeftBehind` carries this out.

## Model

| member | source | states |
|---|---|---|
| Nouns.SlotInHead | vere/pkg/noun/nock.c:1444-1456 | an axis whose path starts in the head reads the same subtree in any two cells with that head, which is what lets a kick be keyed by its battery |
| NockSpec.NockMono | vere/pkg/noun/nock.c:158-396 | a product of the reductions, once found, is found with any more steps |
| NockSpec.NockUnique | vere/pkg/noun/nock.c:158-396 | a subject and formula have at most one product |
| NockComp.MacroLighter | vere/pkg/noun/nock.c:1444-1450 | the formula that a kick in the tail (or of axis 1) is rewritten to is lighter than the kick, so compiling ends |
| NockComp.DropAppend | vere/pkg/noun/nock.c:997-1008 | appending emits exactly both pieces: skipping the first leaves the second |
| NockGuard.GuardedMono | vere/pkg/noun/nock.c:1243-1508 | the guarded reductions keep a product with more steps |
| NockGuard.GuardedIsNock | vere/pkg/noun/nock.c:1243-1508 | every product of the guarded reductions is the product of plain Nock |
| NockGuard.NockIsGuarded | vere/pkg/noun/nock.c:1243-1508 | on a formula with a product, the guarded reductions give that product or meet a guard, nothing else |
| NockGuard.SafeYields | vere/pkg/noun/retrieve.c:1876-1943 | a formula judged safe has a product on every subject, and the constant that is reported is that product |
| NockGuard.FixedKnown | vere/pkg/noun/retrieve.c:1876-1943 | every formula of opcodes 1, 3, 5, 7, 8 and the whole subject is judged safe, and its constant reported if its product does not come from the subject |
| NockGuard.KnownBranch | vere/pkg/noun/nock.c:1375-1428 | a branch on such a constant compiles to the arm that its product chooses, and the other arm is not compiled; to a crash if the product is neither yes nor no |
| NockGuard.ProductIsFormulaic | vere/pkg/noun/nock.c:1160-1232 | every formula with a product on some subject is accepted as a formula, if no part reads as a kick at axis 0 or as a hint with a cell for a tag |
| NockGuard.FormulaicCompiles | vere/pkg/noun/nock.c:1160-1232 | an accepted formula compiles if and only if no kick in it that the compiler meets has axis 0 |
| NockGuard.ArmCompiles | vere/pkg/noun/nock.c:1375-1428 | an arm of a computed branch stops compilation only if it is accepted and has a kick at axis 0 |
| NockGuard.BintCompiles | vere/pkg/noun/nock.c:1017-1157 | a hint compiles if and only if its clue and its body do |
| NockGuard.ProductCompiles | vere/pkg/noun/nock.c:1243-1508 | so a formula with a product compiles, under the same condition |
| NockGuard.UntakenKick | vere/pkg/noun/nock.c:1201-1204 | a formula with a product that does not compile, because of an arm never taken |
| NockGuard.TakenHint | vere/pkg/noun/nock.c:1216-1228 | a formula with a product that bytecode never yields, because its taken arm is a hint with a cell for a tag |
| NockMachine.RunAdd | vere/pkg/noun/nock.c:2193-2926 | runs compose |
| NockForward.EnterForward | vere/pkg/noun/nock.c:2193-2926 | entering a formula with a guarded product ends with that product on the rest of the stack, or done if nothing is below |
| NockForward.Forward | vere/pkg/noun/nock.c:1243-1508 | in every keep/lose and tail mode, over any stack, compiled code leaves the guarded product on top, in place of the subject or above it, the rest of the stack unchanged, and goes on with what follows |
| NockForward.ForkForward | vere/pkg/noun/nock.c:1375-1428 | a computed branch takes the arm its test chooses and skips the other whole |
| NockForward.CallForward | vere/pkg/noun/nock.c:1302-1312 | a call returns the callee's product to the frame below, or, in tail position, to the caller's caller |
| NockForward.MemoForward | vere/pkg/noun/nock.c:1130-1152 | a memoised body leaves its product, and the key that is saved under it is dropped |
| NockForward.HintForward | vere/pkg/noun/nock.c:1017-1157 | a hint leaves exactly the product of its body |
| NockForward.MutateIsEdit | vere/pkg/noun/nock.c:1458-1488 | the edit instructions, three with an axis of their own, are the edit rule |
| NockBackward.EnterBack | vere/pkg/noun/nock.c:2193-2926 | a formula that was entered in a run that ends has a guarded product |
| NockBackward.Back | vere/pkg/noun/nock.c:1243-1508 | compiled code inside a run that ends yields: every formula executed in a run with a product has a guarded product of its own |
| NockBytes.AsmHolds | vere/pkg/noun/nock.c:793-940 | the bytes and tables of every suffix of a program lie inside the whole, at the offset its instructions add up to |
| NockBytes.DecodeAsm | vere/pkg/noun/nock.c:535-940 | assembling then decoding gives back each instruction, in execution order, at its own offset; and a skip of so many bytes lands on the boundary of the instruction so many further on |
| NockBytes.HaltLast | vere/pkg/noun/nock.c:793-940 | the last byte, and the offset of the end of the code, is the halt |
| NockBytes.AsmIsBytes | vere/pkg/noun/nock.c:775-940 | everything that is laid out is a byte |
| NockFits.LoadExact | vere/pkg/noun/nock.c:568-690 | a program of fewer than 2^32 bytes at five to an instruction loads if and only if it compiles with at most 2^16 literals, call sites, registration sites and memos, each counted over its instructions |
| NockFits.CompShort | vere/pkg/noun/nock.c:1243-1508 | code has at most four instructions for each node of its formula |
| NockFits.SmallLoads | vere/pkg/noun/nock.c:568-690 | a formula of at most 2^14 nodes loads if it compiles |
| NockFits.ProductLoads | vere/pkg/noun/nock.c:1676-1680 | and it compiles if it has a product on some subject and no part reads as a kick at axis 0 or as a hint with a cell for a tag |
| NockCorrect.CompSkips | vere/pkg/noun/nock.c:1243-1508 | compiled code never skips out of itself |
| NockCorrect.StepSame | vere/pkg/noun/nock.c:2193-2926 | one step over bytes is one step over the instruction list |
| NockCorrect.RunSame | vere/pkg/noun/nock.c:2193-2926 | and so is any run |
| NockCorrect.BurnExact | vere/pkg/noun/nock.c:2193-2984 | running the bytecode of a formula yields a value if and only if the guarded reductions yield that value |
| NockCorrect.BurnSound | vere/pkg/noun/nock.c:2193-2984 | whatever bytecode yields is the Nock product |
| NockCorrect.BurnComplete | vere/pkg/noun/nock.c:2193-2984 | if Nock has a product, bytecode yields it if and only if no guard is met |
| NockCorrect.GuardCause | vere/pkg/noun/nock.c:1375-1428 | a guard that is met names the formula it refuses: an arm that is not accepted as a formula, or an entered formula that does not load |
| NockCorrect.BurnOrFault | vere/pkg/noun/nock.c:2193-2984 | if Nock has a product, bytecode yields it, or meets a formula at fault: an arm that is not a formula, or an entered formula that does not compile or has more than 2^14 nodes |
| NockCorrect.FlatBurns | vere/pkg/noun/nock.c:2193-2984 | bytecode yields every product of a formula of at most 2^14 nodes with no call or kick in it, and no part that reads as a kick at axis 0 or as a hint with a cell for a tag; no guard is left |
| NockCorrect.GuardIsFinal | vere/pkg/noun/nock.c:1375-1428 | a formula that meets a guard at some depth has no guarded product at any |
| NockCorrect.GuardMono | vere/pkg/noun/nock.c:1375-1428 | a guard that is met stays met with more steps |
| NockEmit.Compile | vere/pkg/noun/nock.c:1243-1508 | pushing instructions onto a list, with a running count, emits the code of the formula after what was there, and bails exactly when there is none |
| NockEmit.CompilePair | vere/pkg/noun/nock.c:1249-1312 | two formulas, a swap between them and a last instruction; bails exactly when either formula does not compile |
| NockEmit.CompileFork | vere/pkg/noun/nock.c:1375-1428 | both arms are compiled aside, and their measured lengths become the two skips |
| NockEmit.CompileHint | vere/pkg/noun/nock.c:1017-1157 | the four families of hints emit their code |
| NockEmit.CompileFenced | vere/pkg/noun/nock.c:1035-1051 | a body between a fore and a hind instruction, which jump over one another |
| NockEmit.CompileMemo | vere/pkg/noun/nock.c:1130-1152 | a memoised body and the skip over it |
| NockLayout.Measure | vere/pkg/noun/nock.c:568-690 | the size counted for an instruction is the number of bytes laid out for it, given the tables so far |
| NockLayout.MeltOne | vere/pkg/noun/nock.c:568-690 | one turn of the sizing loop keeps the sizes, table counts and skip distances of what has been passed |
| NockLayout.Melt | vere/pkg/noun/nock.c:568-690 | sizing gives exactly the bytes and table sizes that layout will use, and fails exactly when a table outgrows its index |
| NockLayout.WriteDown | vere/pkg/noun/nock.c:775-788 | bytes are written below those already there, which are left alone |
| NockLayout.AssembleInto | vere/pkg/noun/nock.c:793-940 | filling the buffer from its end produces the assembled program, and fills it exactly |
| NockLayout.Bite | vere/pkg/noun/nock.c:1676-1680 | compiling, sizing and layout together: a program if and only if the formula loads; for a formula of at most 2^14 nodes, if and only if it compiles |
| NockLayout.Burn | vere/pkg/noun/nock.c:2193-2926 | the interpreter loop is the byte machine, step for step |
| Bits.PcLow | vere/pkg/noun/palloc.c:2141-2179 | the popcount of a word cut below a bit counts the set bits below it |
| Bits.PcAll | vere/pkg/noun/hashtable.c:58-61 | the popcount of a word counts its set bits |
| Bits.SetBitAt | vere/pkg/noun/hashtable.c:90-124 | setting a bit changes that bit only |
| Bits.ClearBitAt | vere/pkg/noun/hashtable.c:356-409 | clearing a bit changes that bit only |
| Bits.RankMono | vere/pkg/noun/palloc.c:2141-2149 | rank never falls, and rises past a set bit |
| Bits.PrefixSums | vere/pkg/noun/palloc.c:2054-2138 | the running popcount at each word is the plain rank there |
| Bits.FastRankIsRank | vere/pkg/noun/palloc.c:2141-2179 | a prefix sum and one popcount give the plain rank of any bit |
| PackMap.ScanInv | vere/pkg/noun/palloc.c:1918-2051 | the page being filled is a kept page of the class, behind the scan, and its room and its fill make up the page |
| PackMap.HunsHold | vere/pkg/noun/palloc.c:59-69 | the chunks set aside on a page are just enough for its metadata, and where none are a chunk is more than twice as long |
| PackMap.TargetBounds | vere/pkg/noun/palloc.c:2152-2179 | a chunk goes to a free place of a kept page of its class, never to a later page, nor further on in its own |
| PackMap.TargetOrder | vere/pkg/noun/palloc.c:1918-2179 | the map keeps the order of chunks, across pages and within them |
| PackMap.Conserved | vere/pkg/noun/palloc.c:1918-2051 | the room in the kept pages is the chunks in use and what is left over, which is less than a page |
| PackMap.Occupied | vere/pkg/noun/palloc.c:1918-2179 | a place of a kept page receives a chunk if and only if it is before the frontier |
| PackMap.NoneBetween | vere/pkg/noun/palloc.c:1918-2051 | no page between the one being filled and the scan is kept |
| PackMap.SeekClass | vere/pkg/noun/palloc.c:1918-2051 | walking the list of a class records, for each of its pages, the frontier there and whether it is kept, and touches no other page's record |
| PackWords.PlaceInjective | vere/pkg/noun/palloc.c:2263-2307 | no two live words go to one place |
| PackWords.NewInjective | vere/pkg/noun/palloc.c:2263-2307 | nor to one address |
| PackWords.NewDown | vere/pkg/noun/palloc.c:2263-2307 | no live word goes up, and all go below the end of the kept pages |
| PackWords.BlockLive | vere/pkg/noun/palloc.c:2182-2260 | the words of a block stay together, in order |
| PackWords.BlocksApart | vere/pkg/noun/palloc.c:2182-2260 | two blocks share no word |
| PackWords.BlockAligned | vere/pkg/noun/allocate.h:447-473 | a block starts at a multiple of four and still does after it moves, so its reference can be tagged |
| PackSeek.SeekHunks | vere/pkg/noun/palloc.c:1918-2051 | over all classes: which pages are kept, and the frontier of every chunk page |
| PackSeek.Seek | vere/pkg/noun/palloc.c:2054-2138 | bitmaps and running popcounts for pages and chunks are as the relocation map needs them |
| PackSeek.PageIsRank | vere/pkg/noun/palloc.c:2141-2149 | a page's new number, read from the bitmap, is the number of kept pages before it |
| PackSeek.RelocateIsNew | vere/pkg/noun/palloc.c:2182-2307 | the address computed by bit arithmetic for a block is the one the map gives |
| PackReloc.Relocator.RelocateMark | vere/pkg/noun/palloc.c:2182-2260 | gives the new address and whether this is the first visit, and marks the block |
| PackReloc.Relocator.RelocateSlot | vere/pkg/noun/allocate.c:1140-1169 | rewrites one slot, once, and descends only into a cell seen for the first time, neither of whose fields has been rewritten |
| PackReloc.Relocator.RelocateNoun | vere/pkg/noun/allocate.c:1140-1169 | rewrites exactly the slot and both fields of every cell first reached through it, each once, however shared |
| PackReloc.Relocator.RelocateRoots | vere/pkg/noun/manage.c:2700-2713 | after all roots: a word is rewritten if and only if it is a root or a field of a reached cell, and the reached cells are closed under reference |
| PackMove.MovedRun | vere/pkg/noun/palloc.c:2367-2477 | copying a run of live words down keeps every word above it as it was, so no source is overwritten before it is copied |
| PackMove.MoveChunk | vere/pkg/noun/palloc.c:2367-2477 | a chunk that has somewhere else to go is moved there whole |
| PackMove.FillPrevious | vere/pkg/noun/palloc.c:2381-2401 | the free places of the page being filled take this page's first chunks, until they or the page run out |
| PackMove.MoveRest | vere/pkg/noun/palloc.c:2457-2471 | what is left slides to the front of this page's new place |
| PackMove.MoveChunks | vere/pkg/noun/palloc.c:2367-2477 | a chunk page is emptied to where its chunks go, and reports whether it is kept |
| PackMove.MoveInPlace | vere/pkg/noun/palloc.c:2494-2507 | the pages before the first that goes keep their numbers, and chunk pages among them are compacted where they are |
| PackMove.MoveDown | vere/pkg/noun/palloc.c:2511-2546 | the others slide down in one pass |
| PackMove.Move | vere/pkg/noun/palloc.c:2480-2576 | every live word is where the map sends it, the directory names the kept pages in order, and the new length is their number |
| PackIso.AtomKept | vere/pkg/noun/palloc.c:2367-2576 | an atom's value and length are moved unchanged |
| PackIso.CellGoes | vere/pkg/noun/allocate.c:1140-1169 | the moved cell's fields are its old fields, rewritten |
| PackIso.Isomorphic | vere/pkg/noun/allocate.c:1140-1169 | a reference denotes a noun if and only if its rewriting denotes it after the move |
| PackIso.SharingKept | vere/pkg/noun/allocate.c:1140-1169 | two references are the same if and only if their rewritings are |
| PackIso.Compact | vere/pkg/noun/palloc.c:1918-2576 | seek, rewrite and move together: every root denotes exactly what it did, roots share exactly what they shared, and only kept pages remain; every word in use, reached or not, is at its new place as it was, but for fields of cells that are rewritten, and past the heap only the roots change |
| PackHeap.HapAt | vere/pkg/noun/palloc.c:1967-1973 | the bitmap of chunks in use that is made from the free one has exactly the bits below the page's count of chunks that are not free |
| PackHeap.HapIs | vere/pkg/noun/palloc.c:1983-1985 | its popcount is the reserved chunks and those the free count leaves, as the code asserts |
| PackHeap.HeapPacks | vere/pkg/noun/palloc.c:1923-1997 | the pages of any heap that the allocator keeps are well formed and none is wholly free, and the chunk lists, sorted, are the pages with a free chunk |
| PackHeap.BlockPacks | vere/pkg/noun/palloc.c:2182-2260 | every live block of that heap is one that compaction moves as a whole |
| Heaps.DenotesOne | vere/pkg/noun/allocate.h:240-252 | a reference denotes at most one noun |
| Heaps.DenotesGrown | vere/pkg/noun/allocate.c:476-496 | nothing denotes anything else while boxes are only added and counts only changed |
| Heaps.IncomingUpdate | vere/pkg/noun/allocate.c:476-922 | replacing one box changes the references to an address by the difference of that box's own |
| Heaps.FreeUnreferenced | vere/pkg/noun/allocate.c:849-883 | nothing refers to a free address |
| Counts.Memory.GainUse | vere/pkg/noun/allocate.c:476-496 | one more root; fails if and only if the count is full, and then changes nothing |
| Counts.GainSound | vere/pkg/noun/allocate.c:476-496 | gaining keeps every count equal to its references |
| Counts.LoseSound | vere/pkg/noun/allocate.c:849-883 | so does losing one that is not the last |
| Counts.LastRef | vere/pkg/noun/allocate.c:849-883 | a box with count one that is being lost is referred to by nothing else |
| Counts.FreeSound | vere/pkg/noun/allocate.c:849-883 | freeing it hands its references to whoever loses it |
| Counts.Memory.LoseUse | vere/pkg/noun/allocate.c:849-883 | losing the head by recursion and the tail by iteration ends, with every count exact |
| Counts.Memory.Lose | vere/pkg/noun/allocate.c:849-956 | after losing a reference, a box of the road is free if and only if no root that is left reaches it |
| Counts.LiveReached | vere/pkg/noun/allocate.c:849-883 | with exact counts, whatever is allocated is reached by a root |
| Counts.LeftIsAlive | vere/pkg/noun/allocate.c:849-883 | what is left after losing is what was alive from the roots left |
| Take.CopyTaken | vere/pkg/noun/allocate.c:503-565 | making a copy and its forwarding word changes what no reference denotes, and leaves senior, normal and junior layered |
| Take.CopySound | vere/pkg/noun/allocate.c:503-565 | the copy takes over the references of its fields and has one itself |
| Take.MakeCopy | vere/pkg/noun/allocate.c:503-565 | a copy of one junior box, with its hash, forwarded to; fails only when the road is spent |
| Take.TakeRef | vere/pkg/noun/allocate.c:579-629 | a direct atom or a senior is taken as it is, a normal by counting, a forwarded junior by counting its copy |
| Take.Next | vere/pkg/noun/allocate.c:579-629 | descending heads ends with something taken, and the pile waits for what is left to do |
| Take.PileLarger | vere/pkg/noun/allocate.c:689-725 | every cell that is waiting is larger than what is being taken, so none waits for itself |
| Take.HeadTaken | vere/pkg/noun/allocate.c:689-725 | with a head done the tail comes next, and less work is left |
| Take.FinishCell | vere/pkg/noun/allocate.c:689-725 | with both done the cell is copied, and less work is left |
| Take.TakeNoun | vere/pkg/noun/allocate.c:689-783 | for every noun: ends, with a reference that denotes the same noun, is no junior, and is counted; every count of the road equals its references, copies included; if every cached hash was right for some hash function, every one is; fails only if no address is free or a count is full |
| Take.TookNoJunior | vere/pkg/noun/allocate.c:770-783 | no junior reference anywhere in what was taken |
| Take.OneCopy | vere/pkg/noun/allocate.c:503-565 | each new box is the copy of one junior, which was not copied before, and of no other, and has the hash that it had |
| Take.TakenHashes | vere/pkg/noun/allocate.c:520-556 | taking keeps hashes right, for any hash function: a copy is the same noun as its junior and has its hash |
| EditPath.SlotWalk | vere/pkg/noun/imprison.c:662-710 | turning left and right by the bits of an axis reaches the subtree the rule names |
| EditPath.EditWalk | vere/pkg/noun/imprison.c:662-710 | an edit made along that path is the edit rule |
| InPlace.SwapField | vere/pkg/noun/imprison.c:662-710 | writing a reference into a cell's slot hands over the one that was there |
| InPlace.MutableInNoField | vere/pkg/noun/allocate.h:357-365 | a uniquely owned cell in hand is in no other cell |
| InPlace.MutableMid | vere/pkg/noun/imprison.c:662-710 | opening a slot of a uniquely owned cell changes no noun but the one being edited |
| InPlace.TurnInPlace | vere/pkg/noun/imprison.c:662-710 | one turn through a uniquely owned cell is made in place, and leaves it with no hash; no box but that cell and the one before it changes |
| InPlace.CopyCell | vere/pkg/noun/imprison.c:662-710 | a shared cell is copied with its slot on the path open, and both of its fields gained |
| InPlace.TurnByCopy | vere/pkg/noun/imprison.c:662-710 | one turn through a shared cell leaves that cell alone |
| InPlace.Finish | vere/pkg/noun/imprison.c:662-710 | the new subtree goes into the open slot, the old one is lost, and the result denotes the path filled with it |
| Editing.MayWrite | vere/pkg/noun/imprison.c:662-710 | on the way down a cell may be written if and only if nothing has been copied yet and it had no other reference when the edit began |
| Editing.FollowsOn | vere/pkg/noun/imprison.c:662-710 | a turn keeps the path: written cells are a prefix of it, the next is shared, the rest are new, and each is as the original off the path |
| Editing.FollowsEnd | vere/pkg/noun/imprison.c:662-710 | losing the old subtree and writing the last slot keep that, and write nothing off the path |
| Editing.EditMugs | vere/pkg/noun/imprison.c:662-710 | a box that an edit makes or writes has no hash; any other keeps its fields and its hash |
| Editing.EditHashes | vere/pkg/noun/imprison.c:662-710 | so if every cached hash was right, for any hash function, every one is |
| Editing.EditNoun | vere/pkg/noun/imprison.c:662-710 | for every noun and axis: the result denotes the edited tree, counts are exact, and whatever else is held denotes what it did; the cells written in place are exactly the longest prefix of the path that is uniquely owned, and from the first shared cell on the path is new boxes; every box with a hash is one that was there, with the fields and the hash it had; exits only where the rule has no tree, and fails only if no address is free or a count is full |
| Snapshot.CrashSafe | vere/pkg/noun/events.c:1279-1362 | a state of the disk from which restart gives the old image or the new one is still such a state after any crash |
| Snapshot.PatchTwice | vere/pkg/noun/events.c:813-867 | applying a patch to the image it has made, however long that is, changes nothing |
| Snapshot.PutBetween | vere/pkg/noun/events.c:813-867 | writing the next page of the patch leaves every page old or new |
| Snapshot.WrittenAll | vere/pkg/noun/events.c:813-867 | from any partial application, once all pages are written the image is the new one |
| Snapshot.ComposedFind | vere/pkg/noun/events.c:666-752 | the patch holds a page if and only if it is dirty and is not a page of the heap that the directory says is free, with the bytes in memory |
| Snapshot.SizeIs | vere/pkg/noun/events.c:788-867 | an image that has to grow ends with the last page written, and no page of the patch is past that |
| Snapshot.ReachesIs | vere/pkg/noun/events.c:788-867 | the image has the length the patch says if and only if it need not grow or its last page is in the patch |
| Snapshot.ComposedWf | vere/pkg/noun/events.c:703-752 | a composed patch has the version, the length asked for and the checksum of its control block, and passes its checksums; it reaches its length if and only if the image need not grow or the last page is dirty and in use |
| Saving.Store.PatchCreate | vere/pkg/noun/events.c:449-470 | creates both files if and only if neither is there; each state of the disk is safe |
| Saving.Store.CountPages | vere/pkg/noun/events.c:645-661 | counts the pages the patch will hold |
| Saving.Store.WritePatch | vere/pkg/noun/events.c:703-752 | writes the composed patch page by page; each state of the disk is safe |
| Saving.Store.PatchSync | vere/pkg/noun/events.c:757-770 | syncs both files; each state is safe |
| Saving.Store.PatchVerify | vere/pkg/noun/events.c:495-558 | accepts if and only if the version, the checksum of the control block and the checksum of every page agree, each spelled out |
| Saving.Store.PatchApply | vere/pkg/noun/events.c:788-867 | resizes and writes; every state on the way can be restarted to the new image, and the last is the new image |
| Saving.Store.ImageSync | vere/pkg/noun/events.c:775-783 | once synced, the new image no longer needs the patch |
| Saving.Store.PatchDelete | vere/pkg/noun/events.c:475-490 | unlinks both files in order; each state is safe |
| Saving.Store.Fault | vere/pkg/noun/events.c:231-277 | a write to a clean page marks it, and it alone, dirty |
| Saving.Store.Write | vere/pkg/noun/events.c:231-277 | after any write every clean page still equals its page of the image |
| Saving.Store.Map | vere/pkg/noun/events.c:907-1047 | every page of the image is mapped clean and equal to it; every clean page equals its page of the image and every page outside it is dirty, if and only if the file is as long as the process takes it to be |
| Saving.Store.Commit | vere/pkg/noun/events.c:1279-1362 | from empty patch files to the new image: every state of the disk on the way is safe, and the last but one has the memory file and no control file |
| Saving.Store.Save | vere/pkg/noun/events.c:1279-1362 | every state of the disk during a save restarts to the old image or the new one; when it is done the image has the bytes in memory for each page below the mark but those of the heap that the directory says are free, which are as they were on disk, or zero; memory is at rest if and only if the image did not have to grow or its last page is in use; with pages to write it succeeds if and only if no patch file was left behind |
| Saving.LeftBehind | vere/pkg/noun/events.c:475-490 | a save, a crash between its two unlinks, a restart and a save that fails |
| Saving.VerifiedIsPatch | vere/pkg/noun/events.c:495-558 | a patch on disk that verifies is the patch that was being saved |
| Saving.Store.PatchOpen | vere/pkg/noun/events.c:574-617 | finds the patch that was being saved, whole, or removes what is left of it |
| Saving.Store.Recover | vere/pkg/noun/events.c:1394-1505 | a patch that is whole is applied; otherwise the image is left as it is |
| Saving.Store.Live | vere/pkg/noun/events.c:1394-1505 | from any crash in any state of a save or of an earlier restart, restart ends with exactly the old image or exactly the new one; it is mapped and at rest unless a patch just applied did not reach its length |
| Saving.NewPages | vere/pkg/noun/events.c:703-867 | the new image, page by page: memory where the page was saved, the old image elsewhere, zero where it grew |
| Hamt.KidInsert | vere/pkg/noun/hashtable.c:90-124 | inserting a child at its popcount rank keeps every other child under its own bit |
| Hamt.KidRemove | vere/pkg/noun/hashtable.c:356-409 | so does removing one |
| Hamt.KidReplace | vere/pkg/noun/hashtable.c:90-124 | and replacing one |
| Hamt.PathKid | vere/pkg/noun/hashtable.c:90-124 | the child under a hash's next five bits holds the entries with that longer prefix |
| Hamt.TwoWf | vere/pkg/noun/hashtable.c:175-216 | two entries that met become nodes down to where their hashes part, or a bucket |
| Hamt.TwoGet | vere/pkg/noun/hashtable.c:175-216 | which finds both, and nothing else |
| HamtOps.PutWf | vere/pkg/noun/hashtable.c:90-247 | storing keeps every entry on its hash's path, nodes matching their bitmaps, and says whether the key is new |
| HamtOps.PutGet | vere/pkg/noun/hashtable.c:90-247 | lookup after storing: the new value for the key, every other key as before |
| HamtOps.SettleWf | vere/pkg/noun/hashtable.c:356-409 | a node left with one entry gives way to the entry, one left with a node stays |
| HamtOps.SettleGet | vere/pkg/noun/hashtable.c:356-409 | which loses nothing |
| HamtOps.DelIs | vere/pkg/noun/hashtable.c:302-421 | deleting takes out one entry, the victim, if there is one, and every other stays |
| HamtOps.VictimIs | vere/pkg/noun/hashtable.c:302-421 | the victim is the key whenever the key is there |
| HamtTable.PutHolds | vere/pkg/noun/hashtable.c:254-284 | the 64 roots hold the finite map with the key stored; every other key is looked up as before, warmth included |
| HamtTable.DelHolds | vere/pkg/noun/hashtable.c:427-440 | and without the victim, every other key as before |
| HamtTable.DelAstray | vere/pkg/noun/hashtable.c:340-351 | an absent key whose path ends in a lone entry deletes that entry |
| HamtTable.StepHolds | vere/pkg/noun/hashtable.c:465-619 | a step of the clock evicts at most one entry, a stored cold one, keeps the rest, and warms nothing |
| HamtTable.StepNearer | vere/pkg/noun/hashtable.c:465-619 | a step that evicts nothing cools an entry, or brings the arm nearer to any given key, modulo 2^31, or ends its turn in a bucket |
| HamtTable.StepMisses | vere/pkg/noun/hashtable.c:475-478 | a step over an empty place of a node changes nothing and is reported as a miss |
| HamtTable.MissCounted | vere/pkg/noun/hashtable.c:254-284 | a table with a bound of one entry that takes a second, lowers the count, removes nothing, and ends with two |
| HamtTrim.TrimRowIs | vere/pkg/noun/hashtable.c:530-565 | in a bucket, the first cold entry from the arm goes, those passed are cooled, the rest stay |
| HamtTrim.TrimIs | vere/pkg/noun/hashtable.c:465-602 | at any depth a step evicts only a stored cold entry under the arm, and keeps every other key's value |
| HamtTrim.SkipNearer | vere/pkg/noun/hashtable.c:583-588 | skipping a whole slot never passes a hash outside it |
| HamtTrim.TrimProgress | vere/pkg/noun/hashtable.c:465-602 | every step that evicts nothing makes one of three kinds of progress |
| HamtSweep.TrimRowAt | vere/pkg/noun/hashtable.c:530-565 | in a bucket, every line from the arm's index to the first cold one is cooled, that one is gone, and every other is as it was |
| HamtSweep.TrimSteps | vere/pkg/noun/hashtable.c:465-602 | at any depth a step passes a prefix with no entry, or cools or takes out the only entry under a prefix and passes it, or goes through the bucket of the arm's hash; every other entry is as it was, and the arm is where the code leaves it |
| HamtSweep.StepsUp | vere/pkg/noun/hashtable.c:465-602 | what a step does under one prefix, with nothing else changed, is what it does to the whole |
| HamtSweep.SkipIs | vere/pkg/noun/hashtable.c:579-588 | passing a prefix leaves the arm at the first hash that does not share it, or at zero if none is left |
| HamtTable.RootSteps | vere/pkg/noun/hashtable.c:604-619 | the same of a step on the table |
| HamtTable.Table.constructor | vere/pkg/noun/hashtable.c:30-53 | a new table is the empty map |
| HamtTable.Table.Git | vere/pkg/noun/hashtable.c:735-820 | lookup is the map's; afterwards an entry that its root slot holds alone is warm, and every other lookup, warmth included, is as it was |
| HamtTable.Table.Store | vere/pkg/noun/hashtable.c:254-284 | stores, warm, and the count grows if and only if the key is new; every other lookup, warmth included, is as it was |
| HamtTable.Table.Del | vere/pkg/noun/hashtable.c:427-440 | the map loses the victim, every other lookup as it was, and the count goes down by one, wrapping; it loses the key and nothing else if and only if the path led nowhere or to the key |
| HamtTable.Table.TrimRoot | vere/pkg/noun/hashtable.c:607-619 | one step of the clock on the table, as `HamtSweep.Steps` has it: what is cooled or taken out, which entries stay as they were, and where the arm stands |
| HamtTable.Table.Evict | vere/pkg/noun/hashtable.c:254-284 | the clock turns, step after step as `HamtSweep.Steps` has them, up to the first that reports something; which ends, by warm entries and then the arm's distance |
| HamtTable.Table.PutGet | vere/pkg/noun/hashtable.c:254-284 | stores, then evicts at most one stored entry, if and only if the count is over the bound; if misses are told apart, a table with no more entries than its bound has no more after, for every bound that the count does not wrap at |
| HamtTable.Table.TrimTo | vere/pkg/noun/hashtable.c:624-643 | ends with the count at the bound or where it was, keeping the value of every key that is left |
| PageList.FreeList.Unlink | vere/pkg/noun/palloc.c:234-329 | takes one run out; both chains, head and tail agree with the rest in order |
| PageList.FreeList.Insert | vere/pkg/noun/palloc.c:563-782 | puts one in at its place; both chains, head and tail agree |
| PageList.FreeList.Resize | vere/pkg/noun/palloc.c:234-329 | changes one run, and no link |
| PageHeap.GoodInsert | vere/pkg/noun/palloc.c:563-782 | freed pages that touch no run become a run: still sorted, apart, and exactly the free pages |
| PageHeap.GoodJoin | vere/pkg/noun/palloc.c:563-782 | freed pages next to one run join it |
| PageHeap.GoodMerge | vere/pkg/noun/palloc.c:563-782 | freed pages between two runs make them one |
| PageHeap.GoodTake | vere/pkg/noun/palloc.c:234-329 | a run that is used whole leaves the list |
| PageHeap.GoodTrim | vere/pkg/noun/palloc.c:234-329 | a run that is used in part keeps the rest |
| PageHeap.Pages.Find | vere/pkg/noun/palloc.c:241-273 | finds the first run large enough |
| PageHeap.Pages.Alloc | vere/pkg/noun/palloc.c:234-329 | adds one allocation and keeps every other; first fit, or the end of the heap; pages are lost if and only if the run found starts at page 0, as many as were wanted, and the free list names exactly the free pages if and only if none are lost; the directory has room for every entry afterwards if and only if it had and the heap did not have to grow past a directory that rounding up leaves too short, and when it stops having room the first entry past it is the first word of the pages returned |
| PageHeap.LostGood | vere/pkg/noun/palloc.c:234-329 | losing the first pages of a run at page 0 leaves the list right about every other page, and can happen only when none have been lost |
| PageHeap.LostSpoils | vere/pkg/noun/palloc.c:234-329 | a list that is right but for lost pages names exactly the free pages if and only if there are none |
| PageHeap.PageZeroLost | vere/pkg/noun/palloc.c:126-329 | two allocations from a heap whose directory page is full, after which page 0 is free and on no list |
| PageHeap.Pages.PagesSize | vere/pkg/noun/palloc.c:892-933 | counts the pages of an allocation |
| PageHeap.Pages.Append | vere/pkg/noun/palloc.c:192-231 | an allocation at the end of the heap changes no other and no free run |
| PageHeap.Pages.PlaceDirectory | vere/pkg/noun/palloc.c:132-178 | the new directory past the end, with as many pages as the entries it has room for take, and the old one still there |
| PageHeap.Pages.ExtendDirectory | vere/pkg/noun/palloc.c:126-189 | the directory moves past the end, sized for what is wanted; the old one is freed, and every other allocation is kept; the entries of its own pages fit, up to a page of pages of entries |
| PageHeap.Pages.ExtendHeap | vere/pkg/noun/palloc.c:192-231 | pages at the end of the heap, past the directory if that had to move; the directory has room for every entry if and only if it had and was not moved to a place that rounding up leaves too short |
| PageHeap.DirectoryShort | vere/pkg/noun/palloc.c:126-329 | one allocation from a heap whose directory page is full, after which the directory is shorter than the heap and its first missing entry is a word of the allocation |
| PageHeap.BlocksMarked | vere/pkg/noun/palloc.c:304-308 | marking free pages, or pages past the end, adds one allocation and changes none |
| PageHeap.BlocksFreed | vere/pkg/noun/palloc.c:593-606 | freeing one removes it and changes none |
| PageHeap.BlocksCut | vere/pkg/noun/palloc.c:917-931 | freeing the last pages of one leaves the rest of it and changes none |
| PageHeap.Pages.Clear | vere/pkg/noun/palloc.c:593-606 | clears a block to its end |
| PageHeap.Pages.FreeLast | vere/pkg/noun/palloc.c:623-671 | a block at the end goes back to the open space, with the free run before it if there is one: the last page of the heap is in use again |
| PageHeap.Pages.Neighbour | vere/pkg/noun/palloc.c:706-710 | finds the first run that ends at or after a page |
| PageHeap.Pages.GrowRun | vere/pkg/noun/palloc.c:728-748 | a run grows, and swallows the next if it reaches it |
| PageHeap.Pages.AddFree | vere/pkg/noun/palloc.c:696-766 | freed pages are put in order, and joined with what they touch |
| PageHeap.Pages.Release | vere/pkg/noun/palloc.c:563-782 | frees exactly one allocation other than the directory, page 0 included, or the last pages of one, keeping the list sorted, its runs apart, its links and tail agreeing, and the last page in use; a directory that has room for every entry still has |
| Chunks.ClassFits | vere/pkg/noun/palloc.c:492-530 | the class chosen is large enough, and less than twice what was asked, or the least |
| Chunks.FirstFree | vere/pkg/noun/palloc.c:492-530 | the first free place, word by word, then by trailing zeros |
| Chunks.TurnWf | vere/pkg/noun/palloc.c:492-865 | turning one bit keeps the free count equal to the popcount, and changes no other place |
| Chunks.AllFree | vere/pkg/noun/palloc.c:785-865 | the free count is full if and only if no chunk is in use |
| Chunks.LinkIs | vere/pkg/noun/palloc.c:785-865 | linking adds the page and no other, once |
| Chunks.LinkUnsorted | vere/pkg/noun/palloc.c:785-865 | and may leave the list out of order |
| Chunks.UnlinkIs | vere/pkg/noun/palloc.c:785-865 | unlinking removes the page and no other |
| Chunks.TakenApart | vere/pkg/noun/palloc.c:492-543 | two chunks in use share no word |
| Chunks.Hunks.MakeChunks | vere/pkg/noun/palloc.c:444-489 | a new page of chunks, all but its reserved ones free, at the head of its list |
| Chunks.Hunks.Carve | vere/pkg/noun/palloc.c:491-530 | gives a chunk of the class that was free and no other; a page is on its list if and only if it has a free chunk |
| Chunks.Hunks.FreeWords | vere/pkg/noun/palloc.c:785-865 | frees that chunk and no other; the page goes if and only if it was the last in use, and a page that stays has one in use |
| Palloc.BlocksDisjoint | vere/pkg/noun/palloc.c:491-543 | two live blocks, of pages or chunks, share no word |
| Palloc.EntriesOwn | vere/pkg/noun/palloc.c:126-329 | while the directory has room for its entries, no live block has a word of one |
| Palloc.LiveEnds | vere/pkg/noun/palloc.c:192-231 | a live block ends before the stack |
| Palloc.ChunkAdded | vere/pkg/noun/palloc.c:491-530 | taking a chunk adds one live block and changes none |
| Palloc.ChunkGone | vere/pkg/noun/palloc.c:785-865 | giving one back removes it, with its page if that was its last, and changes none |
| Palloc.FewerPages | vere/pkg/noun/palloc.c:917-931 | the pages given up are exactly those past what the length needs |
| Palloc.Heap.constructor | vere/pkg/noun/palloc.c:85-124 | a new heap has its directory and no block |
| Palloc.Heap.MakeChunks | vere/pkg/noun/palloc.c:443-489 | a page from the page allocator, cut up; no block changes |
| Palloc.Heap.AllocPages | vere/pkg/noun/palloc.c:532-543 | a live block of whole pages, at least as long as asked, and by less than a page longer |
| Palloc.Heap.AllocWords | vere/pkg/noun/palloc.c:491-530 | a live block of a chunk, at least as long as asked and less than twice, from a page of its class or a new one |
| Palloc.Heap.Imalloc | vere/pkg/noun/palloc.c:532-543 | adds exactly one live block that was not live, at least as long as asked and not much longer: by less than a page for pages, less than twice for a chunk, or the least chunk; fails only if the heap has come to the stack; page 0 is lost, and the directory left too short, exactly as the page allocator says of the pages the request needs |
| Palloc.Heap.Ifree | vere/pkg/noun/palloc.c:867-889 | removes exactly that block; a page with no chunk left in use goes back to the free list |
| Palloc.Heap.Shrink | vere/pkg/noun/palloc.c:917-931 | a block of pages keeps as many as it needs, and is gone if it needs none |
| Palloc.Heap.Move | vere/pkg/noun/palloc.c:975-982 | allocates elsewhere, copies every word that both lengths have, and frees; every other block keeps its words; pages are lost exactly as in allocating |
| Palloc.Heap.Irealloc | vere/pkg/noun/palloc.c:891-983 | between chunks and pages of any size: the block is replaced by a live one at least as long as asked, by less than a page longer, and as close a fit as a new one if it is elsewhere or a chunk; every word that both lengths have is kept, and every other live block keeps its place and its words; it stays where it is if and only if it is a chunk that is long enough and of the least length or less than twice too long, or pages of which some can be given up; but a block of pages asked for no words is gone and its address returned; pages are lost if and only if the block does not stay where it is and allocating loses them, and only then can the directory come to be too short |
| Roads.Measures | vere/pkg/noun/allocate.h:288-341 | heap and stack and open space make up the road, and share no word; junior is the stack, normal the rest |
| Roads.Disjoint | vere/pkg/noun/manage.c:1017-1147 | at any depth, a road's region lies in the open space of every road around it, and directions alternate |
| Roads.Stack.Grow | vere/pkg/noun/palloc.c:192-231 | the heap grows if and only if it does not meet the stack |
| Roads.Stack.Hate | vere/pkg/noun/manage.c:1017-1217 | opens a road the other way in the widest page-aligned region that leaves the padding, if and only if there is one, and notes the cap |
| Roads.Stack.Fall | vere/pkg/noun/manage.c:1159-1202 | what was on the child's heap is junior to the parent, what was on the parent's is normal still |
| Roads.ReachLeast | vere/pkg/noun/manage.c:1352 | growing a heap by any less leaves out a box in the open space |
| Roads.LovedOnHeap | vere/pkg/noun/manage.c:1331-1369 | grown over the copies and popped, the parent has every box of its own on its heap |
| Roads.PoppedSound | vere/pkg/noun/manage.c:1358-1361 | popping the stack takes no count with it: counts that were exact stay exact |
| Roads.Stack.Love | vere/pkg/noun/manage.c:1331-1369 | fall, take the product and pop: the product denotes the same noun in what is left, is not junior, and is counted, with every count of the parent exact; the parent's heap has grown by the least that holds the copies, its stack is what it was when the road was opened and shares no word with the child; what is gone is what was on the part of the stack that is popped, and every other box stays; fails only if memory or a count runs out or the copies come to the stack |
| Roads.ProductOutside | vere/pkg/noun/manage.c:1331-1369 | a product that has been taken reaches nothing on the whole stack of the road that was left to, so all of it down to the ear can go |
| Ream.Shallowest | vere/pkg/noun/jets.c:2091-2162 | a list of locations that is not empty has one no deeper than the rest, the one a pass gets done |
| Ream.Dashboard.Put | vere/pkg/noun/jets.c:2098-2157 | activates one location: its label is its name on the label its parent has, its jet the one of its name within its parent's jet; at a root, its name alone and the jet of that name |
| Ream.Dashboard.Pass | vere/pkg/noun/jets.c:2113-2155 | one pass activates those whose parents are active, keeps the others, and shortens the list if there were any |
| Ream.Dashboard.Gather | vere/pkg/noun/jets.c:2091-2112 | roots are activated and all others listed, in whatever order the cold state has them |
| Ream.Dashboard.Rebuild | vere/pkg/noun/jets.c:2091-2162 | for every cold state closed under parents, ends with exactly the registered locations active, each with its name on its parent's label and the jet of its name within its parent's |
| Ream.Dashboard.RebuildFor | vere/pkg/noun/jets.c:2091-2162 | for every cold state, after as many passes as there were locations listed, none is left if and only if the state is closed under parents; in one that is not, the list is never empty after any number of passes, and something registered is not active |
| Ream.UngroundedWaits | vere/pkg/noun/jets.c:2091-2162 | whatever is active has registered parents all the way up |
| Ream.ClosedGrounds | vere/pkg/noun/jets.c:2091-2162 | in a cold state closed under parents every location does |
| Ream.ClosedIsGrounded | vere/pkg/noun/jets.c:2091-2162 | a cold state is closed under parents if and only if every registered location does, so closure is exactly what the rebuild needs |

## Left out

- Nock opcode 12: the compiler emits it and the instruction always crashes here; there is no scry handler.
- Jets, call-site caches and the memo cache: a kick always runs the arm's code, and a memoised body is always computed.
- Hint side effects (stack traces, profiling, printing): a hint's instructions keep the stack and the value, and the fore instruction always says yes.
- All crashes are one outcome; the reason, the trace and the unwinding are not kept.
- The limits of the assembler (16-bit table indices, 32-bit lengths) are part of whether a formula loads, not a separate error; for a program that could have 2^32 bytes, `NockFits` does not say whether it loads.
- The road stack as raw words: operands and frames are one sequence of tagged entries.
- NockLayout.Burn: runs a given number of steps, since Nock itself need not end.
- Freeing of programs and of the code cache, and moving programs between roads.
- Compaction of the allocator's own records: dells and chunk-page records are side tables, so their relocation, the sorting of the chunk lists, the release of records of emptied pages and the shrinking of the directory are not modelled.
- Compaction off the home road, and roots that are not nouns (hash tables, the jet dashboard).
- PackReloc.Relocator.RelocateMark: marks are a set of blocks, not bits in the page and chunk bitmaps.
- Where the heap's allocator puts a box: taking and editing use any free address of the road.
- Take.TakeNoun: the pile is a list of frames, not words on the road stack; what is in memory after a failure is not described, as the road is then abandoned.
- Editing.EditNoun: an open slot holds zero until it is written; the hash function is a parameter; computing a hash and storing it is left out. What is in memory after a failure is not described.
- South roads in reference counting are the north ones with the order turned, by `Heaps.Road`; the code has a copy of each routine.
- Snapshots: the guard page, `u3e_toss`, backups, ephemeral and dry-run modes, the exit on an image larger than the loom, and the durability of directory entries. A torn file never passes its checksum.
- Hash tables: nodes are values, so writing a node in place and reallocating it are not captured; the hash of a key is a parameter; union, walking and deleting callbacks are left out.
- HamtTable.Table.TrimTo: asks that the count has not wrapped, since a table that counts entries it does not have may be swept for ever.
- Pages: where the list's own records are kept, and double frees (a caller must name a block in use); the directory's entries are a sequence apart from memory, so what is stored over the entries past a directory that is too short is not followed: from `Roomy` no longer holding on, the model is not the program's.
- Chunks: where chunk-page records are kept (in the page, or in a chunk of their own), the bulk allocator, the order of insertion on inner roads.
- Palloc.Heap.Imalloc: what is in memory after a failure is not described, as the road is then abandoned.
- Roads: the rest of the road's fields (caches, timers, profiling); the struct is a number of words on the stack.
- Roads.Stack.Love: boxes have an address and no length, so the heap ends right after the last copy's address and not at the end of its page; the caches that are copied out beside the product are left out.
- Ream: batteries, hooks and the jet tables' contents; whether a jet matches is a parameter.
- Building atoms from slabs, incrementing large atoms, and multiple edits at once (`u3i_molt`).
- South-road arithmetic of the page allocator.
