# Cyprestore: models and proofs

Cyprestore is a distributed block store. This project models the parts of it whose behaviour is hard to
see from one function at a time, and proves what they keep over whole runs:

- the **lock-free ring** (`Ring`, `RingSafety`, `RingCalls`, `RingWords`, `RingLimits`): producers and
  consumers that claim tickets by compare-and-swap and publish them in ticket order, as an interleaving
  of single atomic steps, first with unbounded cursors and then with 32-bit cursors that wrap; exactly
  when the two agree, and what every call comes back with;
- **replication groups** (`Heap`, `HeapSearch`, `HeapTies`, `Selection`, `PrimarySpread`, `Placement`,
  `Groups`, `GroupAccounting`, `GroupChoice`, `GroupMembers`, `PrimaryMembers`, `GroupBalance`,
  `GroupBuild`, `RgManagers`): a binary heap whose keys change while elements stand in it, the selection
  of servers, and the allocation of extents to groups through a heap of heaps;
- the **extent manager's records** (`KvStores`, `ExtentIds`, `Routers`, `RouterCache`, `BlobRecords`,
  `BlobManagers`, `BlobServices`, `BlobLife`, `Pools`, `PoolRuns`, `PoolLeftover`, `PoolRestart`,
  `PoolManagers`, `Gc`, `GcSoft`, `GcUsers`, `GcManagers`): pools, servers, groups, blobs, routers, restarts
  and garbage collection over a store whose writes may fail, and the router cache under concurrency;
- **memory pools and the request index** (`Arenas`, `ArenaGrowth`, `ArenaList`, `MemBuffers`, `IoEngines`);
- the **network block device server** (`NbdStream`, `NbdCodec`, `NbdReader`, `BlobIo`, `BlobWrites`): the
  reader that frames requests from whatever each read delivers, reads and writes that are not aligned,
  and writes in flight.

How the model relates to the code:

- Loops and objects that change in place are methods and classes. Each is proved equal to a function on
  values, and the promises are proved as lemmas about runs of that function. Concurrent code is a step
  function with one move of one thread per step; a run is any sequence of moves.
- The store is a map of decoded records; a write or a delete takes effect or fails without effect, as a
  parameter says. Memory allocation, remote calls, clocks, random numbers and what a socket delivers are
  parameters as well.
- Where a proof needs a definition as a black box, it is passed as a function value (`Open`, `Left`,
  `Renewing`, `Layout`, `Session`, `RoundRule`, `Settled`).
- `std::priority_queue` is modelled by the array algorithm of its usual implementation: push sifts up;
  pop moves the hole at the root down to a leaf and sifts the last element up from there. This matters
  because keys are raised while their elements are in the heap.

Where the code departs from what it sets out to do, the model follows the code; a lemma shows a case
that goes wrong and another one says exactly when all is well:

- groups that are put aside as near-full are pushed back before the pop, so the pop can take the wrong
  element (`LostGroup`; exact condition: `MembersKeptIff`, no near-full group has fewer extents than
  every group with room);
- the same happens to primaries (`LostPrimary`; exact condition for a heap in order: `PrimariesKeptIff`,
  over whole runs `RunKeepsPrimariesIff`): nothing was put aside, or what was ties with the primary found
  and each is pushed back under a primary that ties as well; with equal loads, as after every fresh
  set-up, that is: at least three are left when one with room is found (`TiedKeptIff`,
  `TiedPrimaryKept`);
- `nearfull` divides integers, so it means that a server is used up, not 85 percent (`Nearfull`,
  `NotEightyFivePercent`);
- `build_heap` changes keys after pushing, so after a recovery the heap may be out of order
  (`RecoveredHeapOutOfOrder`; it is in order if the groups of each primary have equal counts,
  `UniformBuildInOrder`, which is sufficient but not necessary);
- the comparator of the allocator's heap is no order once servers follow groups (exact condition:
  `ClashesIff`); while primaries are chosen it is one, and they are spread evenly (`FillSpreads`);
- a failed set-up of a pool leaves groups behind that can name servers removed later (`LeftoverGroup`;
  exact condition: `InitCoversIff`);
- a pool whose record could not be written after its set-up is set up again after a restart, over heaps
  that already hold its groups (`LostRecordDoubles`; exact condition: `SingleIff`);
- a blob whose groups or routers could not be had stays without them and cannot be collected with its
  remote space (exact conditions: `CreateBlob`, `ResizeBlob`, over whole runs `CollectableIff`);
- a soft delete whose write fails is not taken back (exact condition: `StepAgreesIff`);
- a query can put a deleted router back into the cache (`DeletedComesBack`; exact condition for each
  step: `StepCoherentIff`);
- a scan for a pool finds the blobs of a pool whose id it begins (exact condition: `SoundIff`);
- with remote deletion, a collection that failed halfway can never be completed (`RemoteRetryStuck`;
  exact condition: `RemoteCollectsIff`);
- the record of a server or group that cannot be deleted when its pool is collected is forgotten, and no
  later collection removes it (exact condition: `RetryReachesIff`);
- a deleted user one of whose pools is gone is never removed, nor is any user after them in the run
  (`HeldBack`; exact condition: `UsersGoneIff`);
- a thread that sleeps through 2^32 tickets makes the ring hold more than its capacity or hand out an
  object twice (`LappedPutOverfills`, `LappedGetRepeats`; exact condition: `BuiltFifoIff`);
- `Used` reads the two tails one after the other and can report a full ring for an empty one
  (`UsedRaces`; exact condition: `UsedIff`);
- the reader handles requests twice when a read ends inside a message behind requests of the same
  buffer (`CutMessageRepeats`; exact condition: `ReaderDecodesIff`);
- a write that is not aligned can undo another one that completes while it is in flight (exact
  conditions: `TwoInFlightIff` for given bytes, `InFlightIff` for given ranges);
- a window of 2^32 bytes is handed on with length 0, so the write, if it is accepted, changes nothing
  (`WriteBlob`);
- a failed arena allocation clears what the output held before (exact condition in `Allocate`);
- requests for several units at once let the recycling buffer outgrow its ring (`RequestsOverfill`;
  exact condition: `NeverFullIff`).

Integers are unbounded except where width matters: the ring's cursors, the reader's 32-bit sums, the
32-bit window length, the 64-bit extent index.

## Model

| member | source | states |
|---|---|---|
| `Words.PowerOf2Iff` | clients/common/ring.h:64-66 | the bit test accepts exactly the powers of two, and zero |
| `Words.AndMask` | clients/common/ring.cpp:56 | masking with 2^k - 1 is the remainder modulo 2^k |
| `RingSafety.StepKeeps` | clients/common/ring.cpp:36-89 | every move of any thread keeps cons_tail <= cons_head <= prod_tail <= prod_head <= cons_tail + capacity and exactly one owner for each open ticket, publishes the ticket at the tail with its own object, and answers "full" or "empty" only if that is true when the opposite tail is read |
| `RingSafety.RunKeeps` | clients/common/ring.cpp:36-89 | the same for every reachable state, with the objects put and taken so far |
| `RingSafety.FirstInFirstOut` | clients/common/ring.cpp:36-89 | in every interleaving the objects taken are a prefix of the objects put, which are a prefix of the objects that claimed tickets, at most a capacity apart |
| `RingCalls.StepAnswers` | clients/common/ring.cpp:36-91 | at either width a move begins a call of an idle thread, ends the thread's call with an answer to it (an Enqueue with success for its own object or "full", a Dequeue with an object or "empty"), or leaves the thread in the same call; no other thread is touched |
| `RingCalls.RunAnswers` | clients/common/ring.cpp:36-91 | over every run the calls a thread began are matched one by one by its answers, and one is left over exactly while the thread is in it |
| `RingCalls.AloneAnswers` | clients/common/ring.cpp:36-91 | wherever a run has come to, a thread that is alone with its tickets ends its call within eight accesses of its own, retries included |
| `RingCalls.SleeperHoldsUp` | clients/common/ring.cpp:57-60 | while the thread with the oldest unpublished ticket does not move, no Enqueue of any thread succeeds |
| `RingWords.StepWraps` | clients/common/ring.cpp:40-60 | one step with 32-bit cursors and a mask is the wrapped image of the step with unbounded cursors, with the same event |
| `RingWords.RunWraps` | clients/common/ring.cpp:36-89 | whole runs with 32-bit cursors are the wrapped images of unbounded runs, for every power-of-two size, if no sleeping thread is lapped |
| `RingWords.BuiltRingIsFifo` | clients/common/ring.cpp:16-89 | first-in first-out order for the ring as `Init` builds it |
| `RingWords.AnswersAlongTheRun` | clients/common/ring.cpp:41-46 | at every point of a 32-bit run "full" and "empty" are true of the unbounded cursors |
| `RingWords.UsedIsMod` | clients/common/ring.h:40-45 | the fill level from wrapped tails is their true difference modulo the size |
| `RingWords.UsedIff` | clients/common/ring.h:40-45 | with the producer tail read after any part of a run and the consumer tail after any longer part, the fill level is the number of objects put at the first instant and not taken at the second, exactly when that is not negative |
| `RingWords.UsedAtAnInstant` | clients/common/ring.h:40-45 | with both tails read at one instant it is the number of objects put and not taken, across wrap-around |
| `RingWords.NeverStuck` | clients/common/ring.cpp:57-60 | while a ticket is open, its owner can take a step that is not a spin |
| `RingLimits.BuiltFifoIff` | clients/common/ring.cpp:36-89 | the 32-bit ring is first-in first-out within its capacity in every schedule, and follows the unbounded ring in every schedule, exactly when both sides are single, or the size is 1, or there are fewer than two threads, or the one thread of a single side is not among them |
| `RingLimits.LappedPutOverfills` | clients/common/ring.cpp:40-54 | the run from the start in which a producer sleeps through 2^32 tickets: one more object is put than the capacity allows |
| `RingLimits.LappedGetRepeats` | clients/common/ring.cpp:68-82 | the run from the start in which a consumer sleeps through 2^32 tickets: one more object is taken than was put |
| `RingLimits.UsedRaces` | clients/common/ring.h:40-45 | for every size above 1, a run in which a put and a get between the two loads make a ring that is empty at both instants report its capacity |
| `Heap.PushHeap` | src/extentmanager/replication_group.cpp:138-147 | the sift-up loop is push |
| `Heap.PopHeap` | src/extentmanager/replication_group.cpp:191-203 | the hole-sinking loop is pop |
| `Heap.PopContents` | src/extentmanager/replication_group.cpp:191-203 | under any comparator pop removes the first element of the array and nothing else |
| `Heap.RequeueKeepsIff` | src/extentmanager/replication_group.cpp:201-203 | pop then push keeps the contents exactly when what is pushed stood at the root |
| `Heap.PopOrder` | src/extentmanager/rg_allocater_by_es.cpp:38-46 | pop restores heap order although the root's key was just changed |
| `Heap.PushOrder` | src/extentmanager/replication_group.cpp:138-147 | push keeps heap order |
| `Placement.EsAllocator.SelectPrimary` | src/extentmanager/rg_allocater_by_es.cpp:37-47 | gives a server of the pool, counts it as a primary, and keeps the heap's members for any comparator |
| `Placement.EsAllocator.SelectSecondary` | src/extentmanager/rg_allocater_by_es.cpp:49-89 | gives a server the group does not have; there is none exactly when the group has all, the one case in which the heap is read empty; the heap's members are restored either way |
| `Selection.SecondaryPicked` | src/extentmanager/rg_allocater_by_es.cpp:49-89 | the search for a secondary finds a server exactly when the group does not have them all, one of the pool that the group does not have, and keeps the heap's members for any comparator |
| `Selection.FillGives` | src/extentmanager/replication_group.cpp:70-97 | whatever the groups had before: filling succeeds exactly when every group, with the primary the first round gives it, has room for the copies asked for; then each has got exactly that many different servers of the pool, and the counters are the numbers of groups each server leads and follows |
| `Selection.NewGroupsFill` | src/extentmanager/replication_group.cpp:70-97 | for groups made anew that is: exactly when the pool has enough servers |
| `Selection.PlacementTotals` | src/extentmanager/replication_group.cpp:70-97 | the primary counters add up to the number of groups, the secondary counters to that times replica_count - 1 |
| `PrimarySpread.ClashesIff` | src/extentmanager/rg_allocater.h:36-43 | two servers each come after the other exactly when one follows more than its share and the other leads more |
| `PrimarySpread.PrimaryLeast` | src/extentmanager/rg_allocater_by_es.cpp:37-47 | from a heap in order the primary is a server that no other comes before |
| `PrimarySpread.SecondaryLeast` | src/extentmanager/rg_allocater_by_es.cpp:49-89 | from a heap in order the secondary is one that no server outside the group comes before |
| `PrimarySpread.SecondaryKeepsOrder` | src/extentmanager/rg_allocater_by_es.cpp:49-89 | with a comparator that stays an order the heap is in order again after a secondary was chosen and counted |
| `PrimarySpread.FillSpreads` | src/extentmanager/replication_group.cpp:70-97 | with the comparator of the code, for any weights, groups and replica count: before its last group no server led more groups per weight, scaled by 1000000 and rounded down, than any other leads in the end |
| `PrimarySpread.EqualWeightsLevel` | src/extentmanager/rg_allocater.h:36-43 | with equal weights up to 1000000 that means that the numbers of groups led differ by at most 1 |
| `Placement.PlacePrimaries` | src/extentmanager/replication_group.cpp:76-84 | the loop that gives every group a primary is `Primaries` |
| `Placement.PlaceRound` | src/extentmanager/replication_group.cpp:87-96 | the loop that gives every group one more server, or stops, is `Secondaries` |
| `Placement.Place` | src/extentmanager/replication_group.cpp:70-97 | the loops together are `Fill`, with the exact condition for success and what each group then has |
| `Placement.PlaceMap` | src/extentmanager/replication_group.cpp:70-97 | the same for a group map in which some groups are made anew and the others are left over from an earlier attempt |
| `RgManagers.Nearfull` | src/extentmanager/replication_group.cpp:314-332 | a group is near-full exactly when one of its servers is used up |
| `RgManagers.NotEightyFivePercent` | src/extentmanager/replication_group.cpp:324-331 | a server at 99 percent does not make its group near-full |
| `RgManagers.RgManager.Init` | src/extentmanager/replication_group.cpp:70-129 | leftover groups included: success exactly when every group has room and the groups can be stored, then full groups and built heaps, each group under its first server, balanced if the counts are zero; groups made anew count no extents, the others keep theirs |
| `RgManagers.RgManager.BuildHeap` | src/extentmanager/replication_group.cpp:131-150 | the loop over the group map builds the two levels of heaps of the specification |
| `RgManagers.SkipNearfull` | src/extentmanager/replication_group.cpp:185-194 | pops aside exactly the leading near-full groups |
| `RgManagers.Take` | src/extentmanager/replication_group.cpp:183-205 | the inner search with its put-back-before-pop is `TakeGroup` |
| `RgManagers.RgManager.AllocateRg` | src/extentmanager/replication_group.cpp:176-222 | the nested search over both heaps is `Allocate`, near-full skips included |
| `RgManagers.RgManager.AllocateRgs` | src/extentmanager/replication_group.cpp:224-240 | the loop is `AllocateMany`, stopping at the first allocation that finds nothing; from a balanced state, while no server is used up, all succeed and the balance stays |
| `GroupChoice.ChoosesLeast` | src/extentmanager/replication_group.cpp:176-222 | with both levels of heaps in order an allocation takes a group with the fewest extents under a primary with the least load, among the groups and primaries with room |
| `GroupChoice.IthId` | src/extentmanager/replication_group.cpp:224-240 | the i-th id of a batch is the one the i-th allocation gives |
| `RgManagers.SetUpStaysBalanced` | src/extentmanager/replication_group.cpp:131-240 | after a set-up from scratch and any number of allocations by the manager, while no server is used up: all succeed, counts under one primary differ by at most 1, and before its last extent no primary had more extents per group, scaled by 10000 and rounded down, than any other has now |
| `RgManagers.ReportsIff` | src/extentmanager/replication_group.cpp:314-332 | every server a search asks for reports its usage exactly when the groups hold only servers of the pool |
| `GroupAccounting.AllocateAccounts` | src/extentmanager/replication_group.cpp:176-222 | an allocation fails exactly when every group on offer is near-full; the group returned was not near-full and gains one extent; every primary's total stays the sum over its groups |
| `GroupAccounting.BatchCountsItsIds` | src/extentmanager/replication_group.cpp:224-240 | each group's count grows by the number of times its id is returned, also when the batch fails; no id returned is near-full |
| `GroupMembers.MembersKeptIff` | src/extentmanager/replication_group.cpp:196-203 | a heap in order keeps its members exactly when every near-full group has at least as many extents as some group that is not |
| `PrimaryMembers.KeptIffRoot` | src/extentmanager/replication_group.cpp:176-222 | in any heap of primaries an allocation keeps them all exactly when none has room or the one found is at the root again after the put-back |
| `PrimaryMembers.PrimariesKeptIff` | src/extentmanager/replication_group.cpp:176-222 | in a heap in order, ties or not: exactly when none has room, the root has room, or what was put aside ties with the primary found and either the load rounds to the same or every place of the put-back lies under a primary that ties; then the heap is in order again |
| `PrimaryMembers.TiedKeptIff` | src/extentmanager/replication_group.cpp:176-222 | with equal loads: exactly when none or the root has room, or at least three primaries are left when one with room is found |
| `PrimaryMembers.RunKeepsPrimariesIff` | src/extentmanager/replication_group.cpp:176-240 | a run of allocations, near-full groups or not, keeps all primaries all along exactly when every step meets that condition |
| `HeapTies.PushAllTie` | src/extentmanager/replication_group.cpp:206-220 | pushing back elements that tie with a root whose key was raised: the root stays exactly when each goes under an element that ties, and then the heap is as if it had not been raised |
| `GroupMembers.LostGroup` | src/extentmanager/replication_group.cpp:196-203 | a near-full group with fewer extents is lost and the chosen one stands twice |
| `PrimaryMembers.LostPrimary` | src/extentmanager/replication_group.cpp:214-220 | of two primaries without load the one without room is lost in the same way |
| `PrimaryMembers.TiedPrimaryKept` | src/extentmanager/replication_group.cpp:206-220 | of four primaries without load the one without room stays |
| `GroupBalance.AllocateBalances` | src/extentmanager/replication_group.cpp:176-222 | with no group of the map near-full an allocation succeeds and keeps order, members and balance of both heap levels |
| `GroupBalance.RunBalances` | src/extentmanager/replication_group.cpp:224-240 | the same over any number of allocations |
| `GroupBuild.BuildIsConsistent` | src/extentmanager/replication_group.cpp:131-150 | for any counts, building gives true totals and each group under its own primary |
| `GroupBuild.FreshBuildBalanced` | src/extentmanager/replication_group.cpp:131-150 | with zero counts both levels are in heap order and balanced |
| `GroupBuild.UniformBuildInOrder` | src/extentmanager/replication_group.cpp:131-150 | with equal counts within each primary both levels are in heap order |
| `GroupBuild.FreshRunStaysBalanced` | src/extentmanager/replication_group.h:89-115 | after a fresh build and any number of allocations: counts under one primary differ by at most 1, floor(10000(n_i - 1)/w_i) <= floor(10000 n_j/w_j) for all primaries with n_i > 0, heap order and members kept |
| `GroupBuild.RecoveredHeapOutOfOrder` | src/extentmanager/replication_group.cpp:136-147 | with counts from a recovery the primaries' heap can be out of order |
| `ExtentIds.BlobIdRecoveredIff` | src/common/extent_id_generator.h:18-28 | GetBlobId undoes GenerateExtentID exactly for blob ids without a dot |
| `ExtentIds.ExtentIdInjective` | src/common/extent_id_generator.h:18-23 | extent ids are injective in blob and index, for all blob ids |
| `ExtentIds.IndexRecovered` | src/common/extent_id_generator.h:18-23 | behind the blob id and a dot stands the index in decimal |
| `KvStores.KvStore.PutAll` | src/extentmanager/extent_router.cpp:57-80 | every record is written in one batch only, batches hold 100 records except the last, success writes everything, failure less than that, and it fails exactly at the first write that fails |
| `KvStores.WrittenIff` | src/extentmanager/extent_router.cpp:57-80 | n records are all written exactly when none of the first ceil(n / 100) writes fails |
| `Routers.RoutersToHolds` | src/extentmanager/extent_router.cpp:45-55 | the routers of begin..end are exactly end - begin + 1, extent i with `rg_ids[i - begin]` |
| `Routers.CollectRouters` | src/extentmanager/extent_router.cpp:45-55 | the loop over the extents collects these routers |
| `Routers.RouterManager.CreateRouter` | src/extentmanager/extent_router.cpp:42-82 | on success exactly these routers are added, each key written once; it succeeds exactly when none of its ceil(n / 100) writes fails, and else stops at the first that does, with some of them added; new keys do not disturb the cache |
| `Routers.RouterManager.LookInCache` | src/extentmanager/extent_router.cpp:146-163 | looks the id up in the shard of its hash |
| `Routers.RouterManager.PutInCache` | src/extentmanager/extent_router.cpp:165-180 | inserts into the shard of the hash unless the id is there; every id stays in its shard |
| `Routers.RouterManager.DeleteInCache` | src/extentmanager/extent_router.cpp:182-196 | erases from the shard of the hash; every id stays in its shard |
| `Routers.RouterManager.QueryRouter` | src/extentmanager/extent_router.cpp:100-144 | run alone, a query answers as a lookup in the store does; what it found is cached afterwards, and nothing else in the cache changes |
| `Routers.RouterManager.DeleteRouter` | src/extentmanager/extent_router.cpp:84-98 | run alone, removes just this router from store and cache, or does nothing if the delete fails |
| `RouterCache.StepKeeps` | src/extentmanager/extent_router.cpp:84-196 | every step of a query or delete keeps: ids in their shards, and store, cache, threads and answers hold only what was created for the id |
| `RouterCache.AnswersAreCreated` | src/extentmanager/extent_router.cpp:84-196 | in every interleaving a query answers only with the router created for its id, and every cached id sits in its shard |
| `RouterCache.QueryAlone` | src/extentmanager/extent_router.cpp:100-144 | a query that is not interrupted answers from the cache, else from the store, and caches what it found |
| `RouterCache.DeleteAlone` | src/extentmanager/extent_router.cpp:84-98 | a delete that is not interrupted leaves its id neither in the store nor in the cache, and touches no other |
| `RouterCache.StepCoherentIff` | src/extentmanager/extent_router.cpp:84-144 | a step keeps whatever is cached or about to be cached in the store or being erased, exactly unless it erases an id that has left the store, that some thread is about to cache and that no other thread is erasing |
| `RouterCache.CacheFollowsStore` | src/extentmanager/extent_router.cpp:84-144 | in every run without such a step a cached router is the stored one unless its delete is under way |
| `RouterCache.ErasedComesBack` | src/extentmanager/extent_router.cpp:130-144 | after such a step later queries find a router that is not in the store |
| `RouterCache.DeletedComesBack` | src/extentmanager/extent_router.cpp:84-144 | ten moves from an empty system after which a query has found a router that was deleted |
| `BlobRecords.ApplyChanges` | src/extentmanager/blob.cpp:50-297 | an operation succeeds exactly when it is granted and its write does not fail: renaming and soft deleting to the owner of a live blob, resizing to them for a larger size of whole extents up to 32 TiB; each error has its exact condition; a success changes what was asked for and nothing else |
| `BlobRecords.StepAgreesIff` | src/extentmanager/blob.cpp:50-190 | an operation keeps memory equal to the decoded records under the pool's prefix exactly unless it is a soft delete whose write fails |
| `BlobRecords.OnlyOwnerChanges` | src/extentmanager/blob.cpp:73-190 | over any run, whatever other users try and whichever writes fail, a blob and its record stay as they are unless its owner acts or it is created anew or removed |
| `BlobRecords.RunInStep` | src/extentmanager/blob.cpp:50-297 | after any run over all pools, with any write failing but that of a soft delete, every pool's map is the decoded records under its prefix |
| `BlobRecords.RunKeepsSizes` | src/extentmanager/blob.cpp:17-20 | over any run, whichever writes fail, sizes stay positive multiples of the extent size up to 32 TB if created so |
| `BlobRecords.SizesNeverShrink` | src/extentmanager/blob.cpp:142-190 | over any run, whichever writes fail, a blob not created anew never gets smaller |
| `BlobManagers.SoundIff` | src/extentmanager/blob.h:42-47 | the pools' keys and scans are kept apart exactly when no pool id begins another one |
| `BlobManagers.PoolIdsPrefixFree` | src/extentmanager/pool.cpp:234-244 | the ids that pools get are of this kind |
| `BlobManagers.BlobManager.CreateBlob` | src/extentmanager/blob.cpp:50-71 | writes the record first and the map only on success, as `Apply` says |
| `BlobManagers.BlobManager.SoftDeleteBlob` | src/extentmanager/blob.cpp:73-101 | marks the blob in memory even if the write fails, as `Apply` says |
| `BlobManagers.BlobManager.RenameBlob` | src/extentmanager/blob.cpp:103-140 | on a failed write name and time are as before; unknown, deleted or foreign blobs are refused |
| `BlobManagers.BlobManager.ResizeBlob` | src/extentmanager/blob.cpp:142-190 | on a failed write size and time are as before; only valid larger sizes are accepted; the old size is reported |
| `BlobManagers.BlobManager.DeleteBlob` | src/extentmanager/blob.cpp:278-297 | removes record and map entry together or neither |
| `BlobManagers.BlobManager.RecoveryFromStore` | src/extentmanager/blob.cpp:193-224 | rebuilds the very map that agreed with the store |
| `BlobServices.WriteRouters` | src/extentmanager/extent_router.cpp:42-82 | the stored router of each new extent names the pool, the blob and the group given for it, exactly when no write fails; what was stored before stays |
| `BlobServices.Provide` | src/extentmanager/pool.cpp:437-443 | groups for n extents are those `AllocateMany` gives, in order, and when the call is done the i-th new router names the i-th of them; which reply, exactly |
| `BlobServices.CreateBlob` | src/extentmanager/resource_service.cpp:210-245 | a new blob is stored with the title, size, pool and user asked for unless its record fails; it has the routers of all its extents exactly when the groups could be had and no router write failed, and then the router of extent i names the i-th group allocated |
| `BlobServices.ResizeBlob` | src/extentmanager/resource_service.cpp:280-315 | refused exactly when the record's resize is; a blob that has grown has just the new size and time, and all its routers exactly when it had them before and nothing failed after its record was written; then the router of each new extent names the group allocated for it |
| `BlobLife.EventCompletesIff` | src/extentmanager/pool.cpp:415-473 | the same of any creation or growth, wherever it stops |
| `BlobLife.RunCompletesIff` | src/extentmanager/pool.cpp:415-473 | after any run from no blobs a blob has all its routers exactly if nothing done to it broke off after its record was stored |
| `BlobLife.CollectableIff` | src/extentmanager/gc_manager.cpp:195-231 | so a blob can be collected with its remote space exactly if everything done to it was finished |
| `Pools.StepKeeps` | src/extentmanager/pool.cpp:72-297 | every operation, failing writes included, keeps: an enabled pool set up from an empty group map has all its groups' servers, and servers of a pool share no name or address |
| `PoolRuns.CallIsPossible` | src/extentmanager/pool.cpp:72-297 | every call is a possible step of the pools: set-up fills the groups by the server selection and so from the pool's servers, and a pool listed earlier for collection is still disabled |
| `PoolRuns.RunKeeps` | src/extentmanager/pool.cpp:72-297 | the same for every run of calls over all pools, collection included |
| `Pools.StepMovesOn` | src/extentmanager/pool.cpp:72-297 | no operation takes a pool back in its life cycle, changes the servers or groups of an enabled pool, or touches another pool; only a disabled pool is removed |
| `PoolRuns.RunMovesOn` | src/extentmanager/pool.cpp:72-297 | the same over every run: servers and groups are fixed while a pool is enabled |
| `PoolRuns.RouterNeverMisses` | src/extentmanager/pool.cpp:713-726 | in every state reached from no pools, with the servers chosen by the selection, the servers of every group of a pool set up from an empty group map are found |
| `Pools.EsRouterHits` | src/extentmanager/extent_server.cpp:233-248 | a router is found exactly when all servers of the group are in the map, and then holds them in order |
| `Pools.InitCoversIff` | src/extentmanager/pool.cpp:100-112 | after a set-up the groups are covered exactly when no group left over from a failed attempt names a lost server |
| `Pools.CreateEsTakes` | src/extentmanager/pool.cpp:626-711 | a server that is accepted is there, nothing else changes, and deleting it undoes that |
| `PoolRuns.InitGives` | src/extentmanager/pool.cpp:93-112 | set-up succeeds exactly when it may begin, the extent servers answer, every group has room for max(replica_num, 1) servers and the groups are stored; then every group has got exactly that many different servers of the pool |
| `PoolRuns.NewPoolRoom` | src/extentmanager/replication_group.cpp:70-97 | for a pool without groups there is room exactly when it has that many servers, or no group to fill |
| `PoolRuns.CopiesLast` | src/extentmanager/pool.cpp:72-297 | in every run, as long as a pool stays enabled its groups have exactly the servers they got at set-up, as many as it had replicas then, whatever it is updated to later |
| `PoolRuns.InitSpreads` | src/extentmanager/pool.cpp:93-112 | set-up of a pool without groups makes no server lead more groups than its share of the weights |
| `PoolRuns.InitCovers` | src/extentmanager/pool.cpp:100-112 | the same for a set-up that fills its groups by the server selection |
| `PoolLeftover.LeftoverGroup` | src/extentmanager/replication_group.cpp:70-129 | a run from no pools in which such a group is left over and its router is missed |
| `PoolRestart.StepSynced` | src/extentmanager/pool.cpp:72-277 | every step of a pool, failing writes and restarts included, keeps: servers in memory and store agree, stored groups are known, groups of a pool that was set up agree, and the heaps hold what the last restart found and all groups once more if the pool was set up since |
| `PoolRestart.StepRecordsIff` | src/extentmanager/pool.cpp:72-277 | the stored record of a pool stays that of the pool in memory exactly unless a step changes it whose write fails |
| `PoolRestart.RunRecords` | src/extentmanager/pool.cpp:72-345 | so in every run without failing writes, restarts included, memory and store say the same of the pool |
| `PoolRestart.RestartKeeps` | src/extentmanager/pool.cpp:299-345 | in every run a restart of an enabled pool keeps its servers, its groups and whether they are covered; it is still enabled exactly if its record was written |
| `PoolRestart.CoveredAcrossRestarts` | src/extentmanager/pool.cpp:72-126 | with restarts too, an enabled pool set up from an empty group map has all its groups' servers |
| `PoolRestart.SingleIff` | src/extentmanager/replication_group.cpp:334-364 | in every run the groups of an enabled pool stand in the heaps once each exactly if the pool was not set up since the last restart or that restart found no groups; else those it found stand twice |
| `PoolRestart.LostRecordDoubles` | src/extentmanager/pool.cpp:106-121 | a set-up whose last write fails, a restart and another set-up: every group of the first stands twice |
| `PoolManagers.InitGroups` | src/extentmanager/replication_group.cpp:70-129 | making the groups, listing servers and groups, and filling with a new allocator is the set-up of the specification; it succeeds exactly when the extent servers answer, the groups are stored and every group has room for max(replica_num, 1) servers, and then every group has got exactly that many different servers of the pool more than before (than none, if made anew) |
| `PoolManagers.PoolManager.CreatePool` | src/extentmanager/pool.cpp:140-178 | adds the pool as asked for unless the name is taken or the write fails, and says which |
| `PoolManagers.PoolManager.UpdatePool` | src/extentmanager/pool.cpp:180-218 | a pool that is not disabled has afterwards the values asked for, and the old ones where nothing was asked for, also when the write fails; status exact |
| `PoolManagers.PoolManager.StartPool` | src/extentmanager/pool.cpp:93-118 | sets up a pool that may be started, with the exact condition for success, what each group has then, and the exact condition for covered groups |
| `PoolManagers.PoolManager.InitPool` | src/extentmanager/pool.cpp:72-126 | enables a created pool with all its servers present, also when the last write fails, exactly when set-up succeeds as in `InitGroups`; a pool without groups exactly when it has max(replica_num, 1) servers or no group to fill; with the exact condition for covered groups and the status of every other case |
| `PoolManagers.PoolManager.SoftDeletePool` | src/extentmanager/pool.cpp:257-277 | disables the pool and changes nothing else of it, also when the write fails; status exact |
| `PoolManagers.PoolManager.CheckNewEs` | src/extentmanager/extent_server.cpp:94-128 | a conflict exactly when a server of the pool shares name, public or private address |
| `PoolManagers.PoolManager.CreateEs` | src/extentmanager/pool.cpp:693-711 | only a created pool gets servers, without duplicate or conflict; status exact |
| `PoolManagers.PoolManager.DeleteEs` | src/extentmanager/pool.cpp:626-636 | only a created pool loses servers, and just the one; status exact |
| `PoolManagers.PoolManager.QueryEsRouter` | src/extentmanager/pool.cpp:713-726 | answers only for enabled pools; no lookup misses for a group of a pool set up from an empty group map |
| `PoolManagers.PoolManager.DeleteAllEs` | src/extentmanager/pool.cpp:638-647 | clears the servers; keeps what holds of all pools if the pool is disabled |
| `PoolManagers.PoolManager.DeleteAllRg` | src/extentmanager/pool.cpp:759-764 | clears the groups; keeps what holds of all pools if the pool is disabled |
| `PoolManagers.PoolManager.DeletePool` | src/extentmanager/pool.cpp:279-297 | removes the pool unless the delete fails |
| `Gc.DeletePoolsKeeps` | src/extentmanager/gc_manager.cpp:134-164 | whatever sub-steps fail, every stored router still has its blob's record, and from the state reached collection leads where it led before, but for the records of servers and groups that were to be deleted and could not be |
| `Gc.CollectedPool` | src/extentmanager/gc_manager.cpp:138-163 | servers, groups and record of a pool go exactly when all its blobs could be collected, which depends only on the faults met; other pools and their records are untouched |
| `Gc.DeletePoolsCleans` | src/extentmanager/gc_manager.cpp:134-164 | a run without failures removes exactly the disabled pools, the routers of their blobs and the records of their servers and groups |
| `Gc.RetryReachesIff` | src/extentmanager/gc_manager.cpp:134-231 | after any attempt another run reaches the state the first was to reach, plus the server and group records the first failed to delete; so it is the same exactly when there are none |
| `Gc.RemoteCollectsIff` | src/extentmanager/gc_manager.cpp:195-248 | with remote deletion a blob can be collected exactly when all its routers are still stored |
| `Gc.RemoteRetryStuck` | src/extentmanager/gc_manager.cpp:203-228 | an attempt that fails at the second extent leaves a blob no later attempt can collect |
| `GcSoft.InTimeIff` | src/extentmanager/gc_manager.cpp:170-176 | a blob is reached in time exactly when it is listed and there is time for it and for all before it |
| `GcSoft.ExtentsExact` | src/extentmanager/gc_manager.cpp:206-228 | with remote deletion the routers of a blob go in order up to the first whose router is missing or on which a step fails; all go exactly when there is none |
| `GcSoft.BlobsExact` | src/extentmanager/gc_manager.cpp:166-193 | exactly which blobs and which routers a pass over blobs of a pool removes, for all faults |
| `GcSoft.SweepOne` | src/extentmanager/gc_manager.cpp:119-131 | the pass over one more pool removes exactly what it would have removed from the first state |
| `GcSoft.GoneIff` | src/extentmanager/gc_manager.cpp:114-132 | after all passes a soft deleted blob and all its routers are gone exactly when it was reached in time, its routers were all stored and no step on it failed |
| `GcUsers.CollectUserIff` | src/extentmanager/gc_manager.cpp:86-103 | a user's blobs all go exactly when nothing keeps one and all the user's pools are in use; blobs and routers of others are untouched |
| `GcUsers.UsersGoneIff` | src/extentmanager/gc_manager.cpp:78-112 | which users are gone after a run, exactly, and that none of their blobs is left |
| `GcUsers.HeldBack` | src/extentmanager/gc_manager.cpp:83-110 | a pool that is gone keeps its user, and every user after this one in the run, whatever they have left themselves |
| `GcManagers.GcManager.DeleteOneBlob` | src/extentmanager/gc_manager.cpp:195-231 | looks the blob up in all pools, deletes its extents in order and then the blob; at every point of the loop every router has its blob's record |
| `GcManagers.GcManager.DeleteBlobs` | src/extentmanager/gc_manager.cpp:166-193 | failures do not stop the loop, running out of time does; every point of the run is sound |
| `GcManagers.GcManager.DeleteAllEs` | src/extentmanager/extent_server.cpp:208-220 | deletes each server's record, passing over failures, and clears the pool's servers |
| `GcManagers.GcManager.DeleteAllRg` | src/extentmanager/replication_group.cpp:278-293 | the same for the groups |
| `GcManagers.GcManager.DeletePools` | src/extentmanager/gc_manager.cpp:134-164 | the loop is `DeletePools`; at every point every router has its blob's record, and no pool's record went with blobs, servers or groups in its maps |
| `GcManagers.GcManager.DeleteSoftDeleted` | src/extentmanager/gc_manager.cpp:114-132 | a soft deleted blob of a pool in use is gone, with all its routers, exactly when it was reached in time, all its routers were stored, and neither a remote nor a router nor a blob step on it failed; if nothing fails, exactly when all its routers were stored; nothing else goes, and every point of the run is sound |
| `GcManagers.GcManager.CollectUserPools` | src/extentmanager/gc_manager.cpp:86-103 | the loop over a user's pools is `CollectUser`; a pool that is gone or disabled is a failure |
| `GcManagers.GcManager.DeleteUserBlobs` | src/extentmanager/gc_manager.cpp:78-112 | a user is gone exactly when the delete of the record works, all pools of this user and of every user before are in use, and nothing keeps a blob of any of them; then none of their blobs is left; what others own stays; every point of the run is sound |
| `Arenas.AllocateAdds` | src/common/arena.cpp:64-127 | success gives num ranges, disjoint from each other and from all before, inside the used part of their blocks; failure changes nothing |
| `Arenas.FreshRunKeeps` | src/common/arena.cpp:64-147 | over any run of allocations and releases: all ranges ever handed out are pairwise disjoint, live ones lie inside their blocks, every region is held or freed exactly once |
| `ArenaGrowth.AllocateOkIff` | src/common/arena.cpp:64-85 | a call succeeds exactly when memory is there or all units fit into the last block, and then they follow one another there and nothing else changes |
| `ArenaGrowth.AllocateGrows` | src/common/arena.cpp:71-124 | otherwise the last block is used up and one block is taken for the other units, of max(min(block_size, max_block_size), bytes needed) bytes |
| `ArenaGrowth.SizeAfterIs` | src/common/arena.cpp:117-118 | the block size is the initial one doubled for every block but the first, until it reaches the limit |
| `ArenaGrowth.FreshBlocksDouble` | src/common/arena.cpp:64-147 | over any run of allocations and releases the block size is that, and no block is smaller than it was, or the limit, when the block was taken |
| `ArenaList.Arena.Allocate` | src/common/arena.cpp:64-127 | the linked list holds what `Allocate` on values says and num_blocks is its length; a failed call restores the arena, and its output exactly when that was empty or the arena had no block |
| `ArenaList.Arena.Release` | src/common/arena.cpp:129-147 | frees each block's memory once, in list order, and resets the arena |
| `MemBuffers.StepKeeps` | src/common/mem_buffer.h:84-173 | every step keeps: free, held and allocating units make up num_units; no unit is in two places; num_units <= ring_size - 1 + n for requests of up to n units |
| `MemBuffers.RunKeeps` | src/common/mem_buffer.h:84-173 | the same over every interleaving |
| `MemBuffers.StepAnswers` | src/common/mem_buffer.h:84-173 | a request is served from the front of the ring at once if there are enough free units; otherwise it waits, and each move of its thread leaves it waiting for as many units or ends it with that many new ones, "full" (only at the cap) or "no memory" |
| `MemBuffers.WaitingIsServed` | src/common/mem_buffer.h:92-106 | below the cap, and with no one in between, a request that waits gets new units in three moves |
| `MemBuffers.PutNeverFull` | src/common/mem_buffer.h:84-132 | with single-unit requests, or a ring of no size, a return never finds the ring full |
| `MemBuffers.GivenWasNotHeld` | src/common/mem_buffer.h:84-160 | a unit handed out is held by nobody |
| `MemBuffers.RequestsOverfill` | src/common/mem_buffer.h:84-173 | for every ring size from 1 and every n from 2 a run of requests for up to n units takes num_units to ring_size - 1 + n, and a return then finds the ring full |
| `MemBuffers.NeverFullIff` | src/common/mem_buffer.h:84-173 | no return finds the ring full in any run exactly when no request is for more than one unit, or the ring has no size |
| `IoEngines.KthIo` | clients/cyprebench/io_engine.cpp:32-61 | the k-th sequential request is the one at place k modulo the pass length |
| `IoEngines.PassTiles` | clients/cyprebench/io_engine.cpp:34-41 | the requests of a pass tile [0, size) exactly |
| `IoEngines.RandomInBounds` | clients/cyprebench/io_engine.cpp:18-43 | random requests are aligned and stay on the device |
| `IoEngines.RandomReaches` | clients/cyprebench/io_engine.cpp:18-43 | every aligned place that fits is drawn, by exactly the numbers equal to its index modulo the number of places |
| `IoEngines.IoEngine.GetIo` | clients/cyprebench/io_engine.cpp:32-61 | gives the sequential request of the specification, or the one at (random % number of places) * 4096, always inside the device |
| `IoEngines.NeighboursSuffice` | clients/cyprebench/io_engine.cpp:128-140 | the two-neighbour check finds an overlap exactly when a scan of everything in flight does |
| `IoEngines.EngineFactory.HasCrossIo` | clients/cyprebench/io_engine.cpp:128-144 | true exactly when a request in flight overlaps; otherwise the request is in flight from then on |
| `IoEngines.EngineFactory.GetNoneCrossIo` | clients/cyprebench/io_engine.cpp:110-120 | hands out the first drawn request that overlaps nothing in flight; none exactly when every draw overlapped something |
| `IoEngines.EngineFactory.PutNoneCrossIo` | clients/cyprebench/io_engine.cpp:122-126 | removes exactly the returned request |
| `IoEngines.IndexRefinesScan` | clients/cyprebench/io_engine.cpp:110-144 | in every run of requests issued and returned the ordered map answers each time as a scan of everything that is out would, and the requests that are out never overlap |
| `NbdStream.ParseDecodes` | nbd/src/nbd_server.cpp:173-227 | a pass over the buffer hands over what the decoder of the whole stream finds, up to where it stops |
| `NbdStream.StaleIffCut` | nbd/src/nbd_server.cpp:175-182 | handled requests stay at the buffer's front exactly when its end cuts a message behind them, outside the last 28 bytes |
| `NbdStream.ReaderDecodesIff` | nbd/src/nbd_server.cpp:138-235 | for every chunking the requests handed over are those of the one-shot decoder exactly when no read but the last ends inside a message behind requests of the same buffer |
| `NbdCodec.HeadRoundTrip` | nbd/src/nbd_server.cpp:186-196 | reading a written request message gives the request |
| `NbdCodec.DecodeWritten` | nbd/src/nbd_server.cpp:186-227 | a stream written request by request, whatever it ends with (no whole message, no request, a disconnect, a write without its data), decodes to these requests and their data, up to the first that ends the connection |
| `NbdCodec.SentIsHandedOver` | nbd/src/nbd_server.cpp:138-303 | what a client sends is what the reader hands over, under the condition on where reads end: all requests if each is a flush, a trim, or a read or write that the block layer starts; else up to the first other one, which is the last handed over |
| `NbdCodec.CutMessageRepeats` | nbd/src/nbd_server.cpp:173-182 | two requests, the second message cut by the first read: something else is handed over |
| `NbdReader.SafeRead` | nbd/src/util.cpp:597-615 | reads the next bytes of the stream, as many as asked for or as there are |
| `NbdReader.OnRecvPack` | nbd/src/nbd_server.cpp:244-303 | hands over the request with its complete data, reading the rest of it, or disconnects; goes on exactly after a flush, a trim, or a read or write that is started |
| `NbdReader.Scan` | nbd/src/nbd_server.cpp:173-227 | the inner loop, with 32-bit sums, is one pass of the specification |
| `NbdReader.HandleBuffer` | nbd/src/nbd_server.cpp:173-227 | and the buffer afterwards holds the stream from where the pass leaves it |
| `NbdReader.ReaderFunc` | nbd/src/nbd_server.cpp:138-235 | the thread hands over exactly what the reader's specification says |
| `BlobIo.WindowIsSmallestIff` | nbd/src/blob_instance.cpp:98-104 | the window is the smallest cover by whole blocks exactly when the 32-bit sum does not wrap |
| `BlobIo.ReadBlob` | nbd/src/blob_instance.cpp:97-117 | fetches the window behind room for the reply, as far as its length fits 32 bits |
| `BlobIo.SendReply` | nbd/src/nbd_server.cpp:305-319 | what is sent is the reply message followed by exactly the bytes asked for, if the window's length fits 32 bits, else by what the buffer held |
| `BlobIo.ReadAround` | nbd/src/blob_instance.cpp:149-176 | for any positive counts the bytes around the data are read from the blob; inside the blob it works exactly when the first read gives something and the second does too, if it is needed |
| `BlobIo.WriteBlob` | nbd/src/blob_instance.cpp:132-204 | a write that succeeds changes exactly [from, from + len), one that fails changes nothing; it succeeds exactly when its window is inside the blob, the transfer is accepted and the reads it needs work; one whose window is 2^32 bytes changes nothing even if it is accepted; a handle that answers a successful read with 0 makes every unaligned write fail |
| `BlobWrites.StepUpToDateIff` | nbd/src/blob_instance.cpp:148-204 | the windows of all writes in flight stay what they would be if submitted now, exactly when the write that completes changes no byte in the margin of another |
| `BlobWrites.WritesAreSerial` | nbd/src/blob_instance.cpp:148-204 | over any run with any number of such writes in flight the blob is as if they were made one after the other in the order they completed |
| `BlobWrites.SparedRuns` | nbd/src/blob_instance.cpp:148-204 | a rule callers can keep: no write is submitted while one in flight reaches into its margin or the reverse; then every run is of this kind |
| `BlobWrites.TwoInFlightIff` | nbd/src/blob_instance.cpp:148-204 | in the run in which two writes are submitted and then complete one after the other, nothing of the first is lost exactly when it changes no byte in the margin of the second |
| `BlobWrites.InFlightIff` | nbd/src/blob_instance.cpp:148-204 | two ranges can be in flight together, whatever the bytes and whichever completes first, exactly when each spares the other's margin |
| `BlobWrites.AlignedSpares` | nbd/src/blob_instance.cpp:148-149 | a write of whole blocks has no margin, so no other write can be undone by it |

## Left out

- The ring's memory order annotations: steps are sequentially consistent.
- RingWords.RunWraps: assumes that no thread sleeps for 2^32 tickets; `BuiltFifoIff` says exactly when that is needed.
- RingWords.BuiltRingIsFifo: the same assumption, for the same reason.
- RingWords.AnswersAlongTheRun: the same assumption, for the same reason.
- RingWords.UsedIff: the same assumption, for the same reason.
- RingWords.UsedAtAnInstant: the same assumption, for the same reason.
- PrimaryMembers.PrimariesKeptIff: for a heap out of order, which a loss or a recovery can leave, only `KeptIffRoot` is claimed.
- Reading the top of a heap that was just emptied (replication_group.cpp:189 and 210): the model does not use the value, and the code does not either.
- RgManagers.RgManager.AllocateRgs: storing the changed counts in batches (replication_group.cpp:241-275) is not modelled.
- RgManagers.RgManager.Init: storing the groups in batches is one step that succeeds or fails; `PoolRestart` has what a partial failure leaves in the store.
- PoolRestart.SingleIff: which groups a failed set-up has stored is left open, and so are collection and the counts of groups that stand twice.
- BlobLife.RunCompletesIff: collection and soft deletes between the events are not part of these runs.
- BlobServices.CreateBlob: the update of the user's record between the groups and the routers is not modelled.
- Placement by rack or host. For the other proofs about placement any comparator is allowed.
- PrimarySpread.FillSpreads: nothing is claimed about how evenly servers follow groups, because the comparator is then no order (`ClashesIff`); weights are parameters, and a weight of 0, by which the code would divide, counts as no share.
- Serialisation: the store holds decoded records, and decoding never fails.
- Pools.StepKeeps: an operation is one step; the locks of the pool manager are not modelled.
- PoolRestart.StepRecordsIff: what a failed write takes apart the code does not put together again before the next write that works.
- Routers.RouterManager.CreateRouter: the creation time of a router is not modelled, and the order of keys within the batches is left open.
- RouterCache.AnswersAreCreated: assumes that an extent id is created at most once.
- PoolManagers.PoolManager.DeleteAllEs: the store records of servers are part of the model of collection (`Gc`), not of this one.
- The remote calls behind a remote deletion, and concurrent changes during a collection.
- GcUsers.UsersGoneIff: who owns a blob and which pools a user has are parameters that do not change during the run.
- Gc.RetryReachesIff: the fault functions cover one run, blob ids are taken to be unique over pools, and a restart between the runs is not modelled.
- Arenas.FreshRunKeeps: sizes are unbounded, so products and sums of 64-bit sizes are taken not to overflow; memory allocation gives a fresh region of the size asked for, as the huge-page branch does.
- Arena alignment and direct allocation.
- MemBuffers.StepKeeps: the ring of free units is an atomic bounded queue, and the unit count is taken not to pass 2^32.
- IoEngines.EngineFactory.GetNoneCrossIo: the retry loop is followed for a finite number of draws, because it need not end; recycling of request units is not modelled.
- NbdReader.Scan: streams in which a buffer offset plus a length reaches 2^32 are excluded, because the code then reads outside its buffer.
- NbdReader.HandleBuffer: the same streams are excluded.
- NbdReader.ReaderFunc: the same streams are excluded; interrupted reads and read errors are not modelled.
- Sending replies from several threads, counting pending requests, and the shutdown of the connection.
- BlobIo.SendReply: requests whose 32-bit sum of length and offset in the block wraps are excluded, because the code then reads past its buffer.
- BlobIo.ReadAround: the same requests are excluded, because the code then writes past its buffer.
- BlobIo.WriteBlob: the same requests are excluded; a transfer that is accepted completes at once here, and later in `BlobWrites`.
- BlobWrites.WritesAreSerial: a write in flight completes as a whole; writes that fail in flight are not modelled. Unaligned writes get this far only with a handle whose `Read` answers a positive count; the repository's own handle answers 0 on success (clients/libcypre/stream/rbd_stream_handle_impl.cpp:82-84), so with it they fail, as `WriteBlob` says.
- Access, heartbeat and user services, configuration, logging and the test paths of the block device server.
