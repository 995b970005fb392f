# abcmalloc, verified

A Dafny model of the allocator's mutable cores and proofs of what they keep. Every class below holds
the state its C++ counterpart holds (tag bytes, intrusive links, bitmaps, headers, counters, rings), is
updated by the same branches in the same order, and is proved against a ghost layout: a map from block
starts to sizes and states. Pointers are offsets, or addresses computed from a base; machine words are
bounded naturals, and wrap-around is written out where the code relies on it or could meet it.

| files | component |
|---|---|
| Powers, Words, RingIndex, MaskShift | shifts, masks, word-wide bit operations |
| Tiling, Accounts, FreeList | layouts as tilings, byte counters over them, tables of doubly linked lists |
| BuddyLayout, BuddyState, BuddyAccounts, BuddyBook | the buddy book (`__buddy_list`) |
| TlsfMapping, TlsfLayout, TlsfBitmaps, TlsfState, TlsfBook | the TLSF book (`__tlsf_list`) |
| RemoteFree, RemoteFreeRing, RemoteFreeStack, RemoteFreeSafety, RemoteFreeDrain, RemoteFreeDeaths | cross-thread frees: the ring and the overflow stack, what whole pushes and drains achieve, and owners that die in a drain |
| ArenaSlots, ArenaClaims, ArenaDrains | claiming, reclaiming and releasing arenas; what a whole claim and a whole exit achieve; owner words and one ring together |
| TierIndex, TierCache, FreeCache, TierBooks, TierRuns | a tier's sheet index, its free cache, cache and sheets with clients over whole runs, the two real books behind them, and a tier object of real buddy books |
| Expansion | the sizing ladder for huge and bulk requests, and how a sheet is cut into tags and data |
| VaReserve, CarveRuns, OwnerTable | the address-space carver, several threads carving at once, the granule owner table, and carver and table over joint runs |
| Ledger, ExternalRegistry | the doctor's hash table and the external-range registry |

How the books are read. A *layout* tiles the pool; `Occupied` keeps its blocks in use. `Valid()` of a
book says that the layout tiles the pool, that it is canonical (no free block could merge), that every
concrete field (each tag or header, each link, both bitmaps or the order mask, the counters, the ring
entries) is the picture of that layout, and that lists hold the free blocks once each. Every public
method keeps `Valid()`. Since a sound layout is a function of its blocks in use
(`BuddyLayout.FreeDetermined`, `TlsfLayout.FreeDetermined`), a method that says what becomes of the
blocks in use has said everything about the free ones.

How the protocols are read. A state, a set of atomic actions for any number of threads, an invariant
kept by every action, and consequences for every reachable state. Steps interleave arbitrarily under
sequential consistency; a compare-and-swap may fail spuriously where the code uses the weak form. Beside
what every step keeps, each protocol says what its operations achieve: a push, a drain, a claim, an exit,
a carve, a sheet's registration and its clearing come to their end when they step alone, in a state that
is given exactly; and a drain misses nothing that was complete when it began, whoever steps meanwhile.

Findings: promises that fail, each with the exact condition under which it holds.

- The ring's constraint admits one cell. Reservations never overrun the cells exactly when there is more
  than one (`RemoteFreeSafety.NeverOverruns`; run `SingleCellOverruns`).
- Both books subtract a tombstoned block from the allocated bytes a second time when it is freed. The
  ghost `lost` sums those bytes. Allocated, tombstoned, parked and free bytes add up to the pool exactly
  when `lost` is a multiple of 2^64 (`BytesConserved` in both books; run `TombstoneThenFree` in both).
- The reclaiming steps take `used() == 0` for emptiness. With `lost` a multiple of 2^64 it is; otherwise
  it says that the live blocks sum up to `lost` modulo 2^64 (`UsedTells` in both books). Two equal
  requests, the first tombstoned and freed, leave it zero over a live block (`BuddyBook.EmptyOverLive`).
- A tombstoned temporal block leaves its ring entry behind. In the buddy book an order's entry is empty
  or names a live temporal block of the order exactly when no temporal block of that order was ever
  tombstoned, and a temporal request is given such a block exactly then (`BuddyBook.RingNames`,
  `BuddyBook.GiveTemporal`; run `BuddyBook.StaleTemporal`). In the TLSF book the same holds list by list
  for the lists outside `stale` (`TlsfBook.Book.RingTells`; run `TlsfBook.StaleTemporal`); there a free
  looks under the block's own size class first, so it can clear a stale entry of that list and leave its
  own, lower, list stale instead: the number of stale lists never falls (`TlsfState.StaleMoves`).
- TLSF shares a temporal block among the requests of a list. It has room for all of them exactly in lists
  up to 80 (`TlsfMapping.SharingRoomy`); in every higher one there are two requests of which the second is
  handed the first one's smaller block (`TlsfMapping.SharingShort`; run `TlsfBook.SharedTooSmall`).
- TLSF's exact allocation returns exact blocks only up to 512 bytes (`TlsfMapping.ExactOnly`).
- The rounding sum in the TLSF search wraps for exactly the sizes above 2^64 - 2^59
  (`TlsfMapping.RoundedFits`). That every block at or above the search list holds the size searched for is
  true exactly up to that size (`TlsfMapping.SearchPromise`); in a pool with a given number of rows also
  for the wrapped sizes whose sum falls beyond its rows, which are refused as they should be
  (`TlsfMapping.PoolPromise`).
- A bulk sheet mapped outside the reservation is not rounded up and can be one min-block short of its
  own request: a sheet of any length serves exactly if the block and one min-block for tags fit
  (`Expansion.ServesIff`, `Expansion.UnroundedServesIff`; the request 1 GiB - 16 in `UnroundedFallsShort`).
- The forced tombstone does not ask the free cache; it keeps the tier sound exactly when the block is
  not parked (`FreeCache.TombstoneSoundIff`; run `FreeCache.ParkedThenTombstoned`).
- A slot of the arena pool leaks exactly when the thread that reserved it dies before posting it
  (`ArenaSlots.NothingLeaks`). It then stays ownerless and unused in every run that follows
  (`ArenaSlots.LeakedForGood`; run `ArenaSlots.LeakRun`).
- An arena's owner may die inside a drain. The remote-free invariant survives exactly if it does not die
  between handing a cell back and advancing the head (`RemoteFreeSafety.AbandonExact`); the blocks it had in
  its hand or detached are lost and never released, and no others (`RemoteFreeDeaths.LostForGood`,
  `RemoteFreeSafety.Quiescent`; run `LossRun`). After a death in that one place nothing leaves the ring any
  more, whoever drains it (`RemoteFreeDeaths.StuckForGood`, `ArenaDrains.RingSticks`; run `StuckRun`).
- The carver keeps granule counts in 32 bits. A granted run covers its request unless the request passes
  2^53 - 2^21 bytes and some listed run has the truncated count (`VaReserve.Reserve.Carve`; run
  `VaReserve.CarveShort`). The cursor's sum of bytes is kept in 64 bits: a bump keeps the reserve right
  exactly when that sum does not wrap (`VaReserve.Reserve.Bump`; run `VaReserve.BumpBack`).
- When carves interleave, runs in anybody's hands still never overlap (`CarveRuns.NoOverlap`) and one that
  gives up finds the rest of the reservation too small (`CarveRuns.FailsWhenFull`), but a run returned since
  its search may then be listed (run `CarveRuns.FailsBesideListed`).

## Model

| member | source | states |
|---|---|---|
| BuddyBook.OrderForSize | src/free_list.hpp:105-111 | the order chosen is the least one whose blocks hold n bytes |
| BuddyBook.ExactTest | src/free_list.hpp:724-726 | the two bit tests of an exact request hold exactly for the sizes that are some order's block size |
| BuddyBook.TopOrder | src/free_list.hpp:501-505 | the top order is in range and its block is the largest that fits the pool |
| BuddyBook.Book.constructor | src/free_list.hpp:501-514 | a new pool is valid and is one free block of the highest order that fits |
| BuddyBook.Book.FreelistRemove | src/free_list.hpp:236-260 | removal of any listed block succeeds on the fast path, takes exactly that block off its list and keeps every other list, although back links of heads are stale |
| BuddyBook.Book.FreelistPush | src/free_list.hpp:262-274 | the block in transit becomes free and listed; everything else of the pool's picture stays right |
| BuddyBook.Book.FindFreeOrder | src/free_list.hpp:174-180 | the mask scan yields the least order at or above o that has a free block, and reports none only if there is none |
| BuddyBook.Book.TakeAndSplit | src/free_list.hpp:276-307 | the split loop turns the head of a list into a block of the target order with each right half free and listed |
| BuddyBook.Book.MergeAndFree | src/free_list.hpp:399-420 | the merge loop ends in exactly the layout of merging upward while the buddy is free |
| BuddyBook.Book.Allocate | src/free_list.hpp:626-666 | a request fails exactly when it is too large or no aligned run of its order is out of use; otherwise it gets a block of its order and at least its size, carved from one tightest free block, with every other block in use untouched |
| BuddyBook.Book.TemporalAllocate | src/free_list.hpp:668-718 | the ring's block, else the last parked one, else a fresh one is handed out, with room for the request |
| BuddyBook.Book.TemporalShared | src/free_list.hpp:680-689 | an order has at most one temporal block; while it lives the ring yields it and so every temporal request of the order is given it, in every state |
| BuddyBook.Book.AllocateExact | src/free_list.hpp:720-740 | succeeds exactly for block sizes with a free block of that very order, and never splits |
| BuddyBook.Book.IsAllocated | src/free_list.hpp:889-896 | accepts exactly the addresses of blocks in use, for every pointer value |
| BuddyBook.Book.Deallocate | src/free_list.hpp:780-822 | accepts exactly the addresses of blocks in use, so repeated, interior and forged frees change nothing; an accepted one puts a temporal block first in its cache while that has room and otherwise merges |
| BuddyBook.Book.TombstoneBlock | src/free_list.hpp:742-757 | accepts exactly live blocks not yet tombstoned; the block keeps its place |
| BuddyBook.Book.BytesConserved | src/free_list.hpp:742-822 | allocated, tombstoned, parked and free bytes add up to the pool exactly while the bytes subtracted twice are a multiple of 2^64 |
| BuddyBook.TombstoneThenFree | src/free_list.hpp:742-822 | every request for which there is room is granted, and its block tombstoned and then freed unbalances a balanced pool |
| BuddyBook.Book.UsedTells | src/free_list.hpp:871-875 | the used counter is zero exactly when the live bytes equal the lost ones modulo 2^64; with none lost, exactly when no live block exists |
| BuddyBook.EmptyOverLive | src/free_list.hpp:742-822 | two equal requests, the first block tombstoned and freed, leave the counter zero over the second block |
| BuddyBook.Book.ClientStore | src/free_list.hpp:236-274 | whatever clients write inside their blocks, no list or header is disturbed |
| BuddyBook.Undo | src/free_list.hpp:626-822 | allocating and freeing at once restores every block boundary and state |
| BuddyBook.RingNames | src/free_list.hpp:668-822 | the ring entry of an order is empty or names a live temporal block of that order exactly when no temporal block of the order was ever tombstoned; so after a free no such entry names the freed block |
| BuddyBook.GiveTemporal | src/free_list.hpp:668-718 | a temporal request that succeeds is given a live temporal block of its order exactly when no temporal block of that order was ever tombstoned |
| BuddyBook.FreedUnused | src/free_list.hpp:820-821 | after a free no block in use starts at the freed address |
| BuddyBook.StaleTemporal | src/free_list.hpp:742-818 | with a ring entry, a parked block or room, and an order untouched so far, the request is granted; tombstoning the block and freeing it makes the next temporal request return an address that is not in use |
| BuddyLayout.SplitDownSound | src/free_list.hpp:289-303 | the split loop keeps the layout tiled, aligned and canonical |
| BuddyLayout.MergeUpSound | src/free_list.hpp:404-419 | the merge loop ends in a canonical layout: no two free buddies below the top |
| BuddyLayout.GapIsFree | src/free_list.hpp:399-420 | every aligned run out of use lies inside a single free block |
| BuddyLayout.FitIffGap | src/free_list.hpp:647-654 | a free block of order o or more exists exactly when an aligned run of order o is out of use |
| BuddyLayout.FreeDetermined | src/free_list.hpp:399-420 | two sound layouts with the same blocks in use are equal |
| BuddyLayout.AllFree | src/free_list.hpp:399-420 | with nothing in use, after any order of frees, the pool is one top block |
| BuddyLayout.AllocateThenFree | src/free_list.hpp:276-420 | merging undoes splitting exactly |
| BuddyLayout.CarveThenFree | src/free_list.hpp:276-420 | freeing a block carved from a tightest free block restores the earlier layout |
| BuddyLayout.BuddyInPool | src/free_list.hpp:404-408 | below the top order the buddy's tag that the loop reads lies inside the pool |
| BuddyState.BuddyTag | src/free_list.hpp:406-408 | the buddy's tag says free at this order exactly when a free block of this order is there |
| BuddyState.FreeTag | src/free_list.hpp:131-160 | a tag is free at order o exactly when a free block of order o starts there |
| BuddyState.UsedTag | src/free_list.hpp:889-896 | a tag below the number of orders marks exactly the starts of blocks in use |
| BuddyState.MaskScan | src/free_list.hpp:174-180 | shifting the mask and counting zeros finds the first nonempty list |
| BuddyState.InsideUnlisted | src/free_list.hpp:236-274 | no list node lies inside a block in use |
| FreeList.ChainUnlink | src/free_list.hpp:251-259 | unlinking by a node's own two links removes it, though the head's back link is never maintained |
| FreeList.ChainPop | src/free_list.hpp:243-249 | popping the head leaves a stale back link and a right list |
| FreeList.ChainPush | src/free_list.hpp:265-272 | pushing without writing the new head's back link keeps every other one right |
| Words.XorPow2 | src/free_list.hpp:405-406 | flipping bit o of an offset moves it to the other half of its parent |
| Words.PowerTest | src/free_list.hpp:725-725 | n & (n - 1) is zero exactly for powers of two |
| Tiling.TilesTotal | src/free_list.hpp:421-514 | the sizes of a tiling's blocks, whatever their states, add up to the pool |
| Tiling.Owner | src/free_list.hpp:276-307 | each address of the pool lies in exactly one block |
| Accounts.Recount | src/free_list.hpp:794-796 | the wrapping counter follows the live bytes through every grant and release |
| Accounts.PoolConserved | src/free_list.hpp:742-822 | counted and free bytes make up the pool exactly when the bytes subtracted twice are a multiple of 2^64 |
| Accounts.UsedZero | src/free_list.hpp:871-875 | a zero counter means that live and lost bytes agree modulo 2^64, and means emptiness exactly when none are lost |
| TlsfMapping.MappingInsert | src/cache_list.hpp:107-114 | the second-level index stays below the row length for every block size |
| TlsfMapping.ClassBounds | src/cache_list.hpp:107-114 | a size lies between the floor of its list and the next floor |
| TlsfMapping.ClassAtLeast | src/cache_list.hpp:107-114 | a size is stored at or above list i exactly when it reaches the floor of i |
| TlsfMapping.ClassMono | src/cache_list.hpp:107-114 | larger blocks are never stored in lower lists |
| TlsfMapping.RoundedFits | src/cache_list.hpp:116-126 | the rounding sum stays in 64 bits exactly up to 2^64 - 2^59 |
| TlsfMapping.SearchPromise | src/cache_list.hpp:116-203 | every block at or above the search list holds the size exactly when the size is at most 2^64 - 2^59; beyond it some smaller block is always there |
| TlsfMapping.PoolPromise | src/cache_list.hpp:116-203 | in a pool of so many rows the same holds exactly up to that size or where the wrapped sum falls beyond the rows |
| TlsfMapping.SumBelow | src/cache_list.hpp:116-126 | past the bound the sum starts again from zero; exactly two block sizes give it a negative row |
| TlsfMapping.SearchMono | src/cache_list.hpp:116-126 | up to the bound larger sizes are never searched for in lower lists |
| TlsfMapping.SearchLeast | src/cache_list.hpp:116-126 | the search starts at the least list all of whose blocks are large enough |
| TlsfMapping.SearchStep | src/cache_list.hpp:116-126 | the search list is the size's own list when the size is its floor, else the next |
| TlsfMapping.SearchSlack | src/cache_list.hpp:116-203 | no block a sixteenth larger than asked for is overlooked |
| TlsfMapping.SearchHolds | src/cache_list.hpp:116-203 | every block at or above the search list holds the size searched for |
| TlsfMapping.SharingExact | src/cache_list.hpp:448-470 | requests of different block sizes meet in one temporal list exactly above list 64 |
| TlsfMapping.SharingRoomy | src/cache_list.hpp:448-470 | a shared temporal block has room for every request of its list exactly up to list 80 |
| TlsfMapping.SharingShort | src/cache_list.hpp:448-470 | every list above 80 has two requests of which the second needs more than the first one's whole block |
| TlsfMapping.ExactClass | src/cache_list.hpp:490-510 | an exact request may be given a block of its list: less than a sixteenth larger |
| TlsfMapping.ExactOnly | src/cache_list.hpp:490-510 | exact requests yield only exact blocks precisely up to 512 bytes |
| TlsfMapping.AdjustedBlockSize | src/cache_list.hpp:396-404 | the block size covers request and overhead, is the next multiple of 32, and is refused exactly when the sum would leave 64 bits |
| TlsfMapping.PoolOf | src/cache_list.hpp:261-281 | the pool between the sentinels is aligned, inside the memory, wastes less than one unit, and is refused only for lack of room or past 4 GiB |
| TlsfLayout.FreeDetermined | src/cache_list.hpp:223-246 | free blocks are the maximal gaps: layouts with the same blocks in use are equal |
| TlsfLayout.AllFree | src/cache_list.hpp:223-246 | with nothing in use one free block spans the pool |
| TlsfLayout.GrantThenRelease | src/cache_list.hpp:429-567 | a grant followed by its release restores the layout |
| TlsfLayout.FuseSound | src/cache_list.hpp:226-242 | swallowing a free neighbour keeps the tiling and leaves no two free neighbours |
| TlsfLayout.TrimSound | src/cache_list.hpp:205-221 | cutting a block keeps the tiling; a remainder below 64 bytes stays with the block |
| TlsfState.SumFits | src/cache_list.hpp:228-240 | the 32-bit sums of neighbouring sizes never wrap |
| TlsfState.ReadNext | src/cache_list.hpp:228-229 | the flags read after a block say free exactly when a free block follows it; the end sentinel never does |
| TlsfState.ReadPrev | src/cache_list.hpp:236-237 | the back pointer leads to the physically preceding block or the start sentinel, whose flags tell whether it is free |
| TlsfState.FitBounds | src/cache_list.hpp:174-203 | a free block serves a search when it is a sixteenth larger, exactly when it reaches the search list's floor, and never when it is too small |
| TlsfState.RingFinds | src/cache_list.hpp:456-470 | each temporal block is what exactly one ring entry of its list names, and the only one of its list; that list is not stale |
| TlsfState.ForgetFinds | src/cache_list.hpp:406-427 | the two lists a free looks under suffice: it clears the block's entry in its own list, or in the list of its block size where that one is stale and higher |
| TlsfState.ClearClassSlots | src/cache_list.hpp:406-418 | clearing one entry of either kind leaves every other temporal block with its own |
| TlsfState.TombSlots | src/cache_list.hpp:512-524 | a tombstone leaves the rings alone and makes the block's list, and no other, stale |
| TlsfState.StaleMoves | src/cache_list.hpp:406-427 | a free never lowers the number of stale lists; it moves staleness exactly from the list of its block size to its own, lower list |
| TlsfBitmaps.BitsFill | src/cache_list.hpp:141-149 | after an insert both bitmap levels agree with the lists |
| TlsfBitmaps.BitsDrain | src/cache_list.hpp:168-171 | after the last removal both bitmap levels agree with the lists |
| TlsfBitmaps.ScanLevel | src/cache_list.hpp:184-189 | masking the first level finds the next nonempty row |
| TlsfBook.Book.constructor | src/cache_list.hpp:260-311 | a new pool is valid: two sentinels and one listed free block between them |
| TlsfBook.Book.FlInsert | src/cache_list.hpp:134-150 | the block heads the list of its size, is marked free, and both bitmaps follow |
| TlsfBook.Book.FlRemove | src/cache_list.hpp:152-172 | exactly that block leaves the list of its size, and both bitmaps follow |
| TlsfBook.Book.FindClass | src/cache_list.hpp:174-189 | the two-level scan finds the first nonempty list at or above the search list, or there is none |
| TlsfBook.Book.TrySplit | src/cache_list.hpp:205-221 | the block is cut exactly when 64 bytes or more remain, and the remainder is listed with right headers on both sides |
| TlsfBook.Book.CoalesceAndFree | src/cache_list.hpp:223-246 | the block is freed and merged with both free neighbours; all blocks in use and all headers stay right |
| TlsfBook.Book.Allocate | src/cache_list.hpp:429-446 | good fit: fails exactly when no free block lies in a list all of whose blocks are large enough; the payload exceeds the request by 32 bytes or more; also for the wrapped sizes that fall beyond the pool's rows |
| TlsfBook.Book.TemporalAllocate | src/cache_list.hpp:448-488 | the ring's block if there is one, otherwise a fresh block that fits and is entered in the ring; what is given is the list's live temporal block exactly when the list is not stale |
| TlsfBook.Book.AllocateExact | src/cache_list.hpp:490-510 | succeeds exactly for powers of two of 64 bytes or more whose list has a block |
| TlsfBook.Book.ClearTemporal | src/cache_list.hpp:406-427 | the one entry cleared is that of the block's list, or of the list of its block size, where the low tail was kept and that list is stale; which lists are stale afterwards is said exactly |
| TlsfBook.Book.Deallocate | src/cache_list.hpp:547-567 | a block in use is freed, its ring entry cleared and the stale lists follow; a free block and null are refused without effect |
| TlsfBook.Book.TombstoneBlock | src/cache_list.hpp:512-524 | accepts exactly live blocks; the block keeps its place, and a temporal one makes its own list stale |
| TlsfBook.Book.BytesConserved | src/cache_list.hpp:512-567 | allocated, tombstoned and free bytes add up to the pool exactly while the bytes subtracted twice are a multiple of 2^64 |
| TlsfBook.TombstoneThenFree | src/cache_list.hpp:512-567 | every request that a free block fits is granted, and its block tombstoned and then freed unbalances a balanced pool |
| TlsfBook.Book.UsedTells | src/cache_list.hpp:616-620 | the used counter is zero exactly when the live bytes equal the lost ones modulo 2^64; with none lost, exactly when no live block exists |
| TlsfBook.Book.TemporalShared | src/cache_list.hpp:456-470 | in every state a list has at most one temporal block, its ring yields it, and the list is not stale |
| TlsfBook.Book.TemporalRoom | src/cache_list.hpp:456-470 | in every state, up to list 80, the shared block has room for every request of its list |
| TlsfBook.Book.RingTells | src/cache_list.hpp:448-567 | the ring entry of a list is empty or names the list's live temporal block exactly when the list is not stale |
| TlsfBook.StaleTemporal | src/cache_list.hpp:448-567 | with a ring entry or a block that fits, and a list untouched so far, the request is granted; tombstoning the block and freeing it makes the next temporal request return an address that is not in use |
| TlsfBook.SharedTooSmall | src/cache_list.hpp:448-488 | with an empty ring and a block that fits, the first of two requests of one list is granted, and the second is given its block though it is smaller than asked for |
| TlsfBook.Book.ClientStore | src/cache_list.hpp:67-73 | whatever clients write inside their blocks, no live header is disturbed |
| TlsfBook.Undo | src/cache_list.hpp:429-567 | allocating and freeing at once restores every block boundary and state |
| RingIndex.MaskIsLow | src/mpsc_free.hpp:90-90 | masking an index by the ring's size minus one is taking its low bits |
| RingIndex.CellsApart | src/mpsc_free.hpp:90-90 | indices less than a lap apart use different cells |
| RingIndex.CellAgain | src/mpsc_free.hpp:120-120 | one lap later the same cell comes round |
| RemoteFreeRing.StampTells | src/mpsc_free.hpp:90-107 | the number read in a cell decides the push: equal to the index means free, smaller means every cell is outstanding |
| RemoteFreeRing.ReserveRing | src/mpsc_free.hpp:94-94 | winning the exchange gives the producer the cell alone |
| RemoteFreeRing.WriteRing | src/mpsc_free.hpp:95-97 | payload before number: a cell is published only when written |
| RemoteFreeRing.HeadLoad | src/mpsc_free.hpp:116-119 | a published head cell holds its job's payload |
| RemoteFreeRing.VacateRing | src/mpsc_free.hpp:120-121 | handing the head cell back frees it for the index one lap ahead |
| RemoteFreeStack.StackPush | src/arena.hpp:1477-1482 | linking a block in succeeds only on the top its link names, and keeps the list readable through the blocks themselves |
| RemoteFreeStack.PlaceCut | src/arena.hpp:1515-1515 | detaching takes the whole stack and loses or doubles no block |
| RemoteFreeSafety.StepKeeps | src/mpsc_free.hpp:78-123 | no step of any producer, owner or client, and no death of an owner outside the one place, breaks the protocol's invariant, for rings of two cells or more |
| RemoteFreeSafety.FetchKeeps | src/arena.hpp:1516-1519 | link and size are read before the release that destroys them, so the walk follows the detached list |
| RemoteFreeSafety.ReleaseKeeps | src/arena.hpp:1521-1523 | releasing a block disturbs no list, not even the one it was linked in |
| RemoteFreeSafety.RunKeeps | src/arena.hpp:1466-1528 | the invariant holds after every run |
| RemoteFreeSafety.ExactlyOnce | src/arena.hpp:1466-1528 | a block handed over is in exactly one place: in flight, in the ring, on the stack, detached, in hand, released or lost with its owner, and there once |
| RemoteFreeSafety.Quiescent | src/arena.hpp:1506-1528 | once nothing is under way, the released pointers and sizes with those lost by dead owners are exactly those handed over; without losses the released are |
| RemoteFreeSafety.RingBounds | src/mpsc_free.hpp:84-123 | outstanding reservations never exceed the cells, and payloads leave once each in reservation order |
| RemoteFreeSafety.RefusedIffFull | src/mpsc_free.hpp:102-103 | a push gives up exactly when every cell is outstanding |
| RemoteFreeSafety.PublishedSeen | src/mpsc_free.hpp:78-82 | a published push that was not popped makes the emptiness test say nonempty |
| RemoteFreeSafety.SingleCellOverruns | src/mpsc_free.hpp:41-43 | with one cell, a run in which the second push overwrites the first |
| RemoteFreeSafety.NeverOverruns | src/mpsc_free.hpp:41-43 | over every run reservations stay within the cells exactly when there is more than one |
| RemoteFreeDrain.PushCompletes | src/arena.hpp:1466-1487 | a push that steps alone ends: its block is published in the next cell if one is free, and is otherwise the top of the stack |
| RemoteFreeDrain.DrainEmpties | src/arena.hpp:1506-1528 | a drain that steps alone, with no push under way, ends after a number of steps known beforehand with ring and stack empty, having released exactly their blocks, the ring's in the order of their reservations and then the stack's from the top |
| RemoteFreeDrain.DrainServes | src/arena.hpp:1506-1528 | whatever others do meanwhile, a drain that ends has released every push published without a gap before it began and every block stacked then |
| RemoteFreeSafety.AbandonExact | src/mpsc_free.hpp:111-123 | an owner's death inside a drain keeps the invariant exactly when it is not between the cell's new number and the head's advance |
| RemoteFreeDeaths.LostForGood | src/arena.hpp:1506-1528 | a block that a dying owner had in its hand or detached is never released and never free again, in any run that follows |
| RemoteFreeDeaths.StuckStays | src/mpsc_free.hpp:111-123 | no step of anyone frees a ring whose head cell is ahead of the head |
| RemoteFreeDeaths.StuckForGood | src/mpsc_free.hpp:111-123 | nothing is popped from such a ring in any run |
| RemoteFreeDeaths.StuckRun | src/mpsc_free.hpp:84-123 | a run to the state in which a death sticks the ring, for every ring of two cells or more |
| RemoteFreeDeaths.LossRun | src/mpsc_free.hpp:84-123 | a run in which a death loses one block |
| ArenaSlots.ClaimKeeps | src/tapi.hpp:142-172 | the exchange that claims a free or a dead thread's slot keeps ownership unique |
| ArenaSlots.PostKeeps | src/tapi.hpp:176-181 | a fresh slot is posted to its builder before anybody else can take it |
| ArenaSlots.FreeKeeps | src/tapi.hpp:100-121 | a leaving thread frees its owner word after its last drain |
| ArenaSlots.StepKeeps | src/tapi.hpp:91-205 | no step of claiming, building, reclaiming, overflowing or leaving, and no death of a thread at any point, breaks the invariant |
| ArenaSlots.Exclusive | src/tapi.hpp:134-205 | in every reachable state no arena is usable by two living threads |
| ArenaSlots.UserOwns | src/tapi.hpp:134-205 | a usable arena is constructed and its owner word names its user |
| ArenaSlots.SingleDrainer | src/tapi.hpp:92-172 | one thread at a time drains an arena, and it is the owner: the ring's single consumer |
| ArenaSlots.BuilderAlone | src/tapi.hpp:175-181 | a slot under construction has one builder and no user |
| ArenaSlots.NothingLeaks | src/tapi.hpp:134-205 | with all living threads outside, a slot handed out is ownerless exactly when its builder died before posting it; every other one is built and free, owned, or left by a dead thread; overflow begins only when the pool is used up |
| ArenaSlots.LeakStays | src/tapi.hpp:134-205 | no step gives a leaked slot an owner, since only its builder would |
| ArenaSlots.LeakedForGood | src/tapi.hpp:134-205 | in every run from there the slot stays ownerless and nobody uses its arena |
| ArenaSlots.LeakRun | src/tapi.hpp:175-181 | a run that leaks the first slot |
| ArenaClaims.ClaimAlone | src/tapi.hpp:134-205 | a call that steps alone ends with the lowest free slot; with none free, the lowest slot of a dead owner; then the next fresh slot; then the youngest node nobody living owns; a new node only if there is none of these; nothing else changes |
| ArenaClaims.LeaveAlone | src/tapi.hpp:91-121 | an exit that steps alone ends with the owner word free and no arena; the initial thread keeps its own |
| ArenaClaims.LeaveThenClaim | src/tapi.hpp:91-149 | what one thread leaves in the pool the next claim takes, or a lower slot; no node and no fresh slot is used |
| ArenaClaims.UseAlone | src/tapi.hpp:207-216 | a thread with an arena is back where it was after its drain |
| ArenaDrains.StepKeeps | src/tapi.hpp:91-205 | with threads draining one ring at their own pace and dying anywhere, a thread inside the drain owns the arena and stands where the ring's consumer stands |
| ArenaDrains.StepRefines | src/tapi.hpp:91-205 | every such step is a step of the ring with a single consumer, or leaves the ring alone |
| ArenaDrains.OneConsumer | src/tapi.hpp:91-205 | over every joint run of owner words and ring, two threads inside the drain are one, and it owns the arena |
| ArenaDrains.UseEmpties | src/arena.hpp:1506-1538 | a thread that uses its arena while no push is under way releases every block handed over by then, and the owner words are as they were |
| ArenaDrains.RingSafe | src/arena.hpp:1506-1538 | over every joint run the ring's invariant holds, with two cells or more, unless a thread dies in the one place in a drain |
| ArenaDrains.RingSticks | src/arena.hpp:1506-1538 | a death there breaks it, and nothing leaves the ring in any joint run that follows |
| MaskShift.InsertBit | src/arena.hpp:214-223 | the word's bits from the position up move by one and the position takes the value |
| MaskShift.CarryUp | src/arena.hpp:225-230 | a higher word moves up by one and takes the carry |
| MaskShift.RemoveBit | src/arena.hpp:235-246 | the word's bits above the position move down by one and the top takes the borrow |
| MaskShift.CarryDown | src/arena.hpp:248-251 | a higher word moves down by one and takes the next word's lowest bit |
| MaskShift.DropIsClear | src/arena.hpp:799-817 | mask &= mask - 1 clears the bit that count-trailing-zeros names |
| TierIndex.RowInsert | src/arena.hpp:211-231 | word shifts with carries are the insertion of one flag in a row |
| TierIndex.RowDelete | src/arena.hpp:233-252 | word shifts with borrows are the deletion of one flag from a row |
| TierIndex.PairedInsert | src/arena.hpp:284-308 | inserting in both sequences at one position keeps every sheet with its own flag |
| TierIndex.PairedDelete | src/arena.hpp:310-329 | deleting from both at one position keeps every other sheet with its own flag |
| TierIndex.SortedInsert | src/arena.hpp:293-299 | inserting a disjoint range at the first larger start keeps the index sorted and disjoint |
| TierIndex.OwnerUnique | src/arena.hpp:331-345 | an address lies in at most one sheet |
| TierIndex.Index.constructor | src/arena.hpp:254-265 | an empty index with every flag clear and no last hit |
| TierIndex.Index.MaskInsert | src/arena.hpp:211-231 | the whole multi-word mask after the carry loop is the old row with one flag inserted |
| TierIndex.Index.MaskRemove | src/arena.hpp:233-252 | the whole multi-word mask after the borrow loop is the old row with one flag deleted |
| TierIndex.Index.Register | src/arena.hpp:284-308 | refused exactly when full; otherwise range and set flag are inserted at one position, the index stays sorted, and the last hit keeps naming the same sheet |
| TierIndex.Index.Unregister | src/arena.hpp:310-329 | range and flag at the position go, every other sheet keeps its flag, and the last hit keeps naming its sheet unless that is the one removed |
| TierIndex.Index.FindRange | src/arena.hpp:331-345 | binary search finds the sheet that holds the address, and fails exactly when none does |
| TierIndex.Index.MarkExhausted | src/arena.hpp:347-351 | one sheet's flag is cleared and no other |
| TierIndex.Index.MarkAvailable | src/arena.hpp:353-357 | one sheet's flag is set and no other |
| TierIndex.Index.HasSpace | src/arena.hpp:359-366 | some word is nonzero exactly when some registered sheet is flagged |
| TierIndex.Index.Select | src/arena.hpp:778-820 | fails exactly when no flagged sheet has room; otherwise picks the last hit or the lowest that has; only sheets without room lose their flags |
| TierCache.LastFit | src/tcache.hpp:54-64 | the latest entry of at least the size, or none |
| TierCache.SwapRemoveBag | src/tcache.hpp:85-95 | swap-remove takes out exactly one entry |
| TierCache.SwapRemoveAddrs | src/tcache.hpp:85-95 | of distinct blocks it takes out exactly the one named |
| TierCache.OutsideMembers | src/tcache.hpp:97-111 | invalidation keeps exactly the entries outside the range |
| TierCache.Cache.Probe | src/tcache.hpp:42-52 | the backward scan finds the latest entry of exactly the size |
| TierCache.Cache.ProbeGe | src/tcache.hpp:54-64 | the backward scan finds the latest entry of at least the size |
| TierCache.Cache.Push | src/tcache.hpp:66-74 | appends an entry exactly when a slot is left |
| TierCache.Cache.Contains | src/tcache.hpp:77-83 | says whether the address is parked |
| TierCache.Cache.PopAt | src/tcache.hpp:85-95 | returns the entry and refills its slot from the end |
| TierCache.Cache.InvalidateRange | src/tcache.hpp:97-111 | the in-place compaction is the filter of the entries outside the range, in order |
| TierCache.Cache.Drain | src/tcache.hpp:113-119 | hands on every entry in order and leaves the cache empty |
| FreeCache.StepKeeps | src/arena.hpp:884-1169 | no allocation, free, tombstone of a held block, expansion, sweep or freeze breaks the tier's invariant: parked, held and forgotten blocks are disjoint and make up the allocated ones |
| FreeCache.RunKeeps | src/arena.hpp:884-1169 | the invariant holds in every state of every run |
| FreeCache.HitIsGood | src/arena.hpp:884-902 | a cache hit is an allocated block of at least the request that overlaps no held block |
| FreeCache.ReclaimedIsEmpty | src/arena.hpp:961-1050 | a sheet that is given back holds no parked, held or forgotten block; that the counter the code reads means this is TierBooks.BuddyUsed and TierBooks.TlsfUsed, and TierRuns.Tier reads it |
| FreeCache.FreeAcceptedIffHeld | src/arena.hpp:1111-1169 | without freezes a free is accepted exactly when a client holds the block |
| FreeCache.DoubleFreeRefused | src/arena.hpp:1111-1169 | the second of two frees in a row changes nothing |
| FreeCache.FreeThenHit | src/arena.hpp:884-1169 | freeing into the cache and asking for no more than was recorded hands the same block back and restores the state exactly |
| FreeCache.TombstoneSoundIff | src/arena.hpp:1137-1149 | the forced tombstone keeps the invariant exactly when the block is not parked |
| FreeCache.ParkedThenTombstoned | src/arena.hpp:1145-1149 | a run from the empty tier: a block is handed out, freed into the cache, tombstoned by address, and handed out again by a hit although no book has it |
| TierBooks.BuddyStart | src/book.hpp:69-73 | a new buddy book stands for a new sheet of the tier |
| TierBooks.BuddyMark | src/book.hpp:131-138 | a grant of the buddy book is the tier's marking step: fresh room for the request inside the sheet that meets no block of the tier; a refusal changes nothing |
| TierBooks.BuddyUnmark | src/book.hpp:162-171 | the buddy book takes back exactly the block the tier names, and merges it upward |
| TierBooks.BuddyTombstone | src/book.hpp:173-182 | the buddy book buries exactly the block the tier names, in its place |
| TierBooks.BuddyUsed | src/arena.hpp:961-1050 | while nothing was subtracted twice, used() == 0 of a buddy sheet says that the sheet holds no block, as the reclaiming steps assume |
| TierBooks.OthersStay | src/arena.hpp:884-1169 | a block of one sheet coming or going leaves every other sheet in step with its own book |
| TierBooks.TlsfStart | src/book.hpp:344-350 | a new TLSF book stands for a new sheet of the tier |
| TierBooks.TlsfMark | src/book.hpp:403-410 | the same marking step on a TLSF sheet, refused exactly when no free block fits |
| TierBooks.TlsfUnmark | src/book.hpp:430-439 | the TLSF book takes back exactly the block the tier names, and every other block in use stays |
| TierBooks.TlsfTombstone | src/book.hpp:441-450 | the TLSF book buries exactly the block the tier names, in its place |
| TierBooks.TlsfUsed | src/arena.hpp:961-1050 | the same reading of used() == 0 on a TLSF sheet |
| TierRuns.LiveAt | src/arena.hpp:1113-1133 | a book's own tags and headers tell whether the tier has a live block at the address, and its size |
| TierRuns.Tier.constructor | src/arena.hpp:612-645 | a tier of one head sheet with its new book is at the start of a run |
| TierRuns.Tier.MarkAt | src/arena.hpp:778-820 | a sheet's book grants exactly if it has room, a whole block that is large enough, and the grant is a step of the run; the other sheets' books stand as before |
| TierRuns.Tier.Insert | src/arena.hpp:778-820 | asking real books: fails exactly when no flagged sheet's book has room; otherwise the last hit or the lowest that has serves; flags are lost exactly by sheets that were asked and refused |
| TierRuns.Tier.Alloc | src/arena.hpp:884-910 | a parked block that is large enough, at the length it was parked with, else a whole block of a book; null exactly when there is neither; what is handed out nobody held and is as long as asked for |
| TierRuns.Tier.Free | src/arena.hpp:1055-1169 | accepted exactly when the books and the cache say the address is live and not parked; parked with its recorded size while a slot is left; otherwise its book frees it, or buries it on cold tiers, and its sheet is open again, or goes exactly when it holds no block any more and, on cold tiers, is mostly tombstoned; every other sheet keeps its flag |
| TierRuns.Tier.Tombstone | src/arena.hpp:1055-1149 | the book buries the held block; its sheet is open again or goes, by the code's own test; every other sheet keeps its flag |
| TierRuns.Tier.Sweep | src/arena.hpp:961-988 | exactly the sheets that are drained and mostly tombstoned go, each as a step of the run; the others stay in order with their flags |
| TierRuns.Tier.Expand | src/arena.hpp:646-703 | a new sheet with its own book joins at the place of its address and is open; every other sheet keeps its flag |
| TierRuns.Tier.Freeze | src/arena.hpp:1360-1385 | freezing a sheet forgets what is parked in it and leaves the books alone |
| TierRuns.FreeThenAlloc | src/arena.hpp:778-1133 | a block that was accepted back serves the next request it is large enough for, from the cache or from its book, unless its sheet went with it |
| TierRuns.RoomAgain | src/free_list.hpp:399-420 | a block merged back leaves room for every request it could serve |
| TierRuns.HistoryRuns | src/arena.hpp:778-1169 | whatever is called on a tier of real books is a run of the state machine, so all that is proved of runs holds of it |
| TierRuns.HeldAreGranted | src/arena.hpp:778-1169 | at any moment a block a client holds is granted by its own sheet's book, is not parked, and is clear of every other block |
| Expansion.CutFits | src/free_list.hpp:438-499 | tags and data are aligned, disjoint and inside the memory, with a tag byte for every min-block; the memory is refused only if it is too small |
| Expansion.OneTagBlock | src/free_list.hpp:475-478 | up to 64 GiB the tags of a huge sheet take one min-block |
| Expansion.OneExpansion | src/arena.hpp:1728-1749 | a carved sheet has a block of the order the request needs, for every growth curve and predicted mean, with or without a guard page |
| Expansion.CarvedReaches | src/arena.hpp:1734-1736 | the safeguard of twice the request plus one class is enough after rounding, guard and tags |
| Expansion.ServesIff | src/free_list.hpp:438-514 | a sheet of any length serves a request exactly when its block and one min-block for tags fit |
| Expansion.UnroundedServesIff | src/arena.hpp:1742-1749 | for every length the curve yields, an unrounded bulk sheet serves exactly the requests whose block is at most twice their size or fits the curve with one min-block to spare |
| Expansion.UnroundedFallsShort | src/arena.hpp:1742-1749 | 16 bytes below 1 GiB it does not |
| Expansion.Retry | src/arena.hpp:1682-1755 | the retry after one expansion succeeds: the fresh book grants the request |
| VaReserve.WantExact | src/va_reserve.hpp:158-159 | the 32-bit granule count is exact for precisely the requests up to 2^53 - 2^21 bytes, the 64-bit rounding for those up to 2^64 - 2^21 |
| VaReserve.ListBelowCursor | src/va_reserve.hpp:71-78 | while a run is granted, fewer runs are listed than granules were handed out |
| VaReserve.CutFront | src/va_reserve.hpp:140-142 | cutting a listed run at its front keeps pieces disjoint and the list in step |
| VaReserve.TakeWhole | src/va_reserve.hpp:143-145 | swap-remove takes exactly the fitted run off the list |
| VaReserve.Reserve.BestFit | src/va_reserve.hpp:130-137 | the backward scan with its early exit finds a shortest run that is long enough |
| VaReserve.Reserve.Reuse | src/va_reserve.hpp:125-147 | fails exactly when every listed run is too short; otherwise grants the front of a shortest fitting one |
| VaReserve.Reserve.Bump | src/va_reserve.hpp:114-123 | the reserve stays right exactly when the 64-bit sum does not wrap; then it fails exactly when the rest of the reservation is too small and otherwise grants granules nobody had; a sum that wraps sets the cursor back |
| VaReserve.Reserve.Carve | src/va_reserve.hpp:149-174 | the front of a shortest sufficient listed run if there is one and the kernel backs it, with the cursor and every other free run as they were; otherwise the granules at the cursor if they fit, with at most one listed run lost, the one the kernel refused; over the 32-bit limit a listed run of the truncated count is given |
| VaReserve.Reserve.Release | src/va_reserve.hpp:197-215 | the run is listed again; with an entry per granule the list is never full; addresses outside the reservation are ignored |
| VaReserve.Reserve.Conserved | src/va_reserve.hpp:114-215 | granted, listed, leaked and untouched granules make up the reservation |
| VaReserve.ReleaseThenCarve | src/va_reserve.hpp:149-215 | a run that came back serves the next request of its length, and no fresh granule is touched |
| VaReserve.CarveShort | src/va_reserve.hpp:149-174 | a request of 2^32 + 1 granules is handed the single granule that is listed |
| VaReserve.BumpBack | src/va_reserve.hpp:114-123 | a bump whose sum wraps puts the cursor back on a granted granule |
| CarveRuns.StepKeeps | src/va_reserve.hpp:114-215 | no step of any carver or return, in any order, breaks the pieces or gives a run a second holder |
| CarveRuns.NoOverlap | src/va_reserve.hpp:114-215 | however carves and returns interleave, runs in the hands of threads and clients share no granule |
| CarveRuns.FailsWhenFull | src/va_reserve.hpp:114-123 | a carve that gives up finds the rest of the reservation too small at that moment, although it tests an older cursor |
| CarveRuns.CarveAlone | src/va_reserve.hpp:149-174 | a carve that steps alone ends exactly as the carver's own call does |
| CarveRuns.FailsBesideListed | src/va_reserve.hpp:149-174 | a run in which a carve is about to give up although a run that fits is listed |
| OwnerTable.StepKeeps | src/sheet_header.hpp:103-129 | no store or clear of any sheet's creation or release breaks the table's invariant |
| OwnerTable.LookupAgrees | src/sheet_header.hpp:131-137 | in every reachable state a live sheet's granules map to its arena and uncovered granules to null |
| OwnerTable.CarveMeetsNone | src/book.hpp:53-62 | a newly granted run meets no sheet, because entries are cleared before runs return |
| OwnerTable.Rises | src/sheet_header.hpp:103-115 | a registration that steps alone ends with every granule of the sheet entered and no other entry changed |
| OwnerTable.Falls | src/sheet_header.hpp:117-129 | a clearing that steps alone ends with every granule of the sheet cleared, no other entry changed and the run ready to go back |
| OwnerTable.SheetLife | src/sheet_header.hpp:103-129 | a sheet's whole life leaves the table as it was |
| OwnerTable.EventKeeps | src/book.hpp:53-62 | table and reserve together: no carve, store, clear or return breaks the table, and every sheet keeps the granted run it was carved from |
| OwnerTable.JointAgrees | src/sheet_header.hpp:103-137 | over every joint run of table and reserve the lookup agrees with the live sheets and no two sheets meet; that carved runs meet no sheet is derived, not assumed |
| OwnerTable.CarveSheet | src/va_reserve.hpp:149-174 | each call of the carver is an event of that run |
| OwnerTable.ReturnSheet | src/va_reserve.hpp:197-215 | each return of a cleared sheet's run is one, and meets the reserve's demands |
| Ledger.Store | src/doctor.hpp:579-590 | writing at the end of a key's path keeps every other key findable |
| Ledger.FullTable | src/doctor.hpp:579-604 | only as many records as cells can leave no empty cell |
| Ledger.Book.constructor | src/doctor.hpp:560-564 | the first table stands for the empty map |
| Ledger.Book.Find | src/doctor.hpp:592-604 | probing returns exactly the record last stored for the key, or says that there is none |
| Ledger.Book.SlotFor | src/doctor.hpp:579-590 | the key's own cell, else the empty cell that ends its path |
| Ledger.Book.Rehash | src/doctor.hpp:529-558 | growing keeps every record |
| Ledger.Book.DropFreed | src/doctor.hpp:606-633 | eviction keeps exactly the live records, and happens exactly when asked for with something to drop and a table to be had |
| Ledger.Book.GrowIfNeeded | src/doctor.hpp:566-577 | below 70 percent nothing changes; at or above it the records that are not live go exactly when doubling would pass the record limit, there are such, and a table can be had; the table doubles exactly when it is still loaded and a table can be had |
| Ledger.Book.RecordAlloc | src/doctor.hpp:754-785 | the pointer maps to its new live record; no other record changes, freed and tombstoned ones included, unless the table is evicted, and then exactly the live ones stay; it fails only in a full table, and never while tables can be mapped |
| Ledger.Book.MarkFree | src/doctor.hpp:812-829 | a live record becomes freed or tombstoned; unknown pointers and repeated frees change nothing |
| Ledger.Book.Quarantine | src/doctor.hpp:1806-1814 | a known pointer's record becomes quarantined and every other record stays; unknown pointers change nothing |
| ExternalRegistry.OneBase | src/external.hpp:143-160 | a base belongs to one registered range at most |
| ExternalRegistry.Registry.Survey | src/external.hpp:89-102 | the slow scan reports a clash exactly when a registered range overlaps |
| ExternalRegistry.Registry.Register | src/external.hpp:86-141 | on both paths registration succeeds exactly when the bounds are valid, nothing overlaps, and a slot is vacant or a page can be had; a page is added exactly when no slot is vacant |
| ExternalRegistry.Registry.Unregister | src/external.hpp:143-178 | on both paths unregistration succeeds exactly for a registered base and length |
| ExternalRegistry.Registry.QueryRange | src/external.hpp:208-228 | size and provenance queries return the range with that base, or nothing exactly when there is none |
| ExternalRegistry.Registry.Within | src/external.hpp:191-206 | an address is within exactly when some registered range holds it |

## Left out

- BuddyBook.Book.ClientStore: link words and tail headers are separate words in the model; with 32-byte min-blocks, where both share a unit, stores into a block's last unit are left out.
- BuddyBook.Book.Deallocate: freeing a tombstoned block subtracts its size from the allocated bytes a second time, as the code does; the ghost `lost` records it, and bytes are conserved only as BuddyBook.Book.BytesConserved says.
- BuddyBook.Book.constructor: memory too small for one block leaves the original with a null base; no object stands for that here (Expansion.CutFits says when it happens).
- TlsfBook.Book.Deallocate: takes null or the start of a block, because headers of merged-away blocks keep their old flags; refusal of arbitrary pointers is claimed for the buddy book only.
- TlsfBook.Book.TombstoneBlock: takes the start of a block, for the same reason.
- TlsfBook.Book.Allocate: a request whose rounding sum wraps into a row the pool has (sizes above 2^64 - 2^59 for which TlsfMapping.PoolPromise says the promise fails) is outside, because splitting a block smaller than its cut writes a header outside the block.
- TlsfBook.Book.TemporalAllocate: the same; capacity for sharers is claimed up to list 80 only, where it holds.
- FreeCache.StepKeeps: leaves out temporal allocation and whole-sheet resets, which park or release blocks behind the cache's back; redzones, which shift the parked addresses; and, on TLSF tiers, frees of addresses that start no block. Its steps ask for an empty sheet where the code reads used() == 0; TierRuns.Tier reads the counter.
- FreeCache.HitIsGood: for the probe used without redzones.
- TierIndex.Index.Select: whether a sheet's book can serve the request is an input, one truth value per sheet; TierRuns.Tier.Insert makes the same search and asks the books.
- TierRuns.Tier.Insert: the flags are a sequence, which TierIndex proves the mask words to stand for; the tier's sheets are buddy sheets, and no limit on their number is modelled.
- Expansion.OneExpansion: the floating-point growth curves and the predictor's mean are arbitrary numbers; the small, medium and large tiers' ladders are left out.
- Expansion.Retry: the fresh book grants the request; that the tier's selection then reaches this sheet is not part of it.
- VaReserve.Reserve.Carve: whether the kernel commits a run is an input; each call is one step here, and CarveRuns takes it apart; requests whose sum with the cursor wraps are outside, since VaReserve.Reserve.Bump says what they break.
- CarveRuns.StepKeeps: requests within the 32-bit count, and below the wrap of the sum.
- VaReserve.Reserve.Release: takes an address outside the reservation, or a granted run with the length it was granted for, up to the 32-bit limit.
- Ledger.Book.RecordAlloc: the count of freed records, events, canaries and backtraces are left out; the hash is any function.
- ExternalRegistry.Registry.Register: pages are values in a sequence, so the sharing of page memory between calls and the lock are not captured.
- RemoteFreeSafety.StepKeeps: sequential consistency only; indices are unbounded, so wrap-around of the 64-bit counters is left out.
- ArenaSlots.StepKeeps: thread ids are not reused.
- ArenaDrains.StepKeeps: one arena and its ring at a time.
- Sheet lists of a tier (linking at the tail, unlinking), which only add easy members.
- Moving a book, flushing its caches at once, reallocation, and the cold cache, which is compiled out.
- The list of sheets outside the reservation, and the owner lookup there.
- Carving without committing, which is the carver minus its kernel calls.
- mmap, mprotect, signals, /proc, printing, statistics, out-of-memory probing, poisoning and all reports of the doctor: I/O.
- The slab variant of the thread cache, which no tier uses, and the C interface.
