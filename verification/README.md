# Verified models of the lock-free core

This project models the lock-free and shared-state parts of a C++ metrics library in
Dafny 4.11 and proves what they promise: the level-0 list of
`ConcurrentSkipListMap`, the hazard pointers that reclaim its nodes, the striped
counter and the tables of cells it grows through, the thread-local multiplexer, the
sampling reservoir, and the snapshot's quantiles and variance.
`dafny verify dfyconfig.toml` checks everything.

## How the code is modelled

Concurrent code is a state machine. Any number of threads take turns; a step is one
atomic load, store or compare-exchange together with the thread-local work around it
(memory order is taken to be sequentially consistent). A location (`Loc`, `Pc`) names the
next access of a thread and carries the local variables it still needs. Loops such as
`goto try_again` have no bound under interference, so they are edges between locations and
not Dafny loops. A run is any finite sequence of states joined by steps.

Fields that no step reads are history: who owns a record, which slots hold a node they
were validated for, the life-cycle stage of a node, counts and logs. Freed addresses may be
handed out again by the very next allocation, so the list proofs cover address reuse.

Code that runs on one thread's own data, or one call at a time, is imperative Dafny:
classes with fields, methods with loops and invariants, each against a specification
function whose properties are proved beside it.

The functions of the state machines say `reads {}`, as they would without it: said outright,
it spares the verifier a second copy of each definition and a sixth of its time.

| files | what they hold |
|---|---|
| `Words` | marked pointers |
| `HazardPointers`, `HazardSafety`, `HazardRuns`, `HazardHelp`, `HazardWaitFree`, `HazardBounds`, `HazardScan` | the reclaimer: steps, invariant, run theorems, what its walks over the records leave, wait-freedom, garbage bounds, and scan's two loops run alone |
| `ListMap`, `ListInv` | the list machine on top of the reclaimer, its transition relation and its invariant |
| `ListFrame`, `ListQuiet`, `ListFind`, `ListOps`, `ListHeap`, `ListChange`, `ListPublish`, `ListRetire`, `ListReclaim`, `ListSafety` | every step keeps the invariant |
| `ListAbs`, `ListEffects`, `ListTrace`, `ListWitness`, `ListRuns`, `ListCalls`, `ListChain`, `ListErase` | linearization points, answers of whole calls, shape of the list, life of a node, what erase leaves behind |
| `SkipListSpec`, `SkipList`, `SkipListIndex`, `SkipListCursor`, `SkipListMap` | the map used by one thread, index levels included, against a sorted finite map |
| `Striped64`, `StripedSafety`, `StripedReader`, `StripedStorage`, `StripedTables`, `StripedSlabs`, `StripedHazard`, `StripedStale` | the counter machine, conservation and reads; slabs of cells and who frees them; all three together; the hazard slot of each thread and the run it does not cover |
| `ThreadLocals`, `ThreadRegistry` | per-thread values, ids, the ring of threads |
| `Snapshot`, `Reservoir`, `ReservoirOnList` | moments and quantiles; the reservoir over an atomic map, alone, and over the concurrent list |

## Findings

- At level 0, `find` leaves with no match after it unlinks a dead node, whatever lies
  beyond it. A negative answer of `find`, `exists` or `erase` is therefore not evidence of
  absence. `SkipListSpec.MatchExactly` gives the exact condition on a quiescent list,
  `SkipListSpec.DeadEntryHidesKey` a concrete list, and `ListCalls.NegativeAnswer` shows
  that under concurrency this exit is the only way such an answer can be wrong. `insert` is
  exact regardless.
- A dead node can outlive every call on a list at rest. With 3, 4 and 5 in the list, two
  calls of `erase` find and mark 3 and 5; the second `find` of the one that marked 5 meets 3,
  unlinks it and leaves, that of the other stops at 4; both return and 5 stays
  (`SkipListSpec.DeadEntryStays`). This is the only way: an erase that returns true has seen
  the node it marked out of the list unless its second `find` left by unlinking a different
  node (`ListErase.EraseTakesOut`), and each dead node in a list at rest was marked by an
  erase that left so (`ListErase.LeftBehind`).
- The assertion at the end of `erase` compares addresses. The second `find` never finds the
  node that was marked, but it may find another at the same address: only if the marked node
  has been freed and its address handed out again (`ListErase.SecondFindIsAnother`).
- `insert`'s index loop leaves on the head's marked null, so no index level is ever
  populated. With no dead node in the index, the loop links a node at level i exactly when no
  link of the head from i up is marked (`SkipListIndex.BuildIndex`,
  `SkipListIndex.LeavesAtMark`), the constructor marks them all, and no step of any run
  changes one (`ListRuns.IndexNeverGrows`).
- If there were an index, that loop could leave it: it tests a link for a mark with `markedi`,
  which a marked null passes, and then takes the mark for an address. It does so on a level if
  and only if the level's last node is dead and below the key and no other dead node lies on
  the way (`SkipListIndex.StraysExactly`; `SkipListIndex.StraysPastDead` is a concrete list,
  `SkipListIndex.LeavesExactly` says which level the loop ends on).
- An index, if there were one, could change an answer: it may carry `find` past a dead node
  at which a plain scan would stop. The places agree if and only if it does not
  (`SkipList.Locate`; `SkipList.IndexSkipsDead` is a concrete list).
- `firstKey` returns the first node's key, which is a key of the map if and only if that node
  is not dead (`SkipListMaps.SkipListMap.FirstKey`; `SkipListMaps.DeadKeyIsFirst` is a concrete
  list).
- On a quiescent list `extractor` comes to an end if and only if no node is dead: the loop
  that reloads from `prev` reads the same dead node for ever
  (`SkipListCursor.EndsIffNoneDead`; `SkipListCursor.DeadNodeTrapsExtractor` is a concrete list).
- In `Striped64::addSlow`, once it has installed the first table and so no longer reloads
  (`load` is false), losing a race to grow leaves it with the winner's table, which its
  hazard slot does not name. A table in use is named by the thread's slot if and only if that
  has not happened (`StripedHazard.SlotCovers`), and there is a run in which the table is
  deleted while the thread is about to use it (`StripedStale.UsesDeletedTable`). The cells
  outlive it in every run (`StripedSlabs.CellsAreLive`).
- The comment on `ThreadLocalStorage`'s `SharedStorage::set` says it replaces an existing
  value; the code asserts that there is none, and that is what is modelled.
- `valueAt` uses position `q * (n + 1)`, which is not the R-7 rule its comment names.
- The integer accumulator of `stdev` loses up to one unit a value.

## Model

| member | source | states |
|---|---|---|
| HazardSafety.AllocateKeepsInv | src/hazard_pointers.h:113-139 | allocate's walk, claim, count and push keep every record with one holder and all counts exact |
| HazardSafety.LeaveKeepsInv | src/hazard_pointers.h:142-147 | retiring a record clears its slots and drops its flag without disturbing a scan or a list |
| HazardSafety.SetSlotKeepsInv | src/hazard_pointers.h:175-178 | a slot store never makes a running scan miss a node, whether it uncovers one or hands one upward |
| HazardSafety.HoldKeepsInv | src/hazard_pointers.h:190-197 | after the re-validating load finds the node on no retire list, the slot protects it from every scan, running or to come |
| HazardSafety.RetireNodeKeepsInv | src/hazard_pointers.h:250-257 | retireNode adds exactly its node to what is pending and keeps lists disjoint |
| HazardSafety.ReclaimKeepsInv | src/hazard_pointers.h:260-292 | every step of shouldScan and both phases of scan keeps the invariant |
| HazardSafety.FreeKeepsInv | src/hazard_pointers.h:276-291 | one swap-and-pop takes exactly its victim from what is pending |
| HazardSafety.VictimNotProtected | src/hazard_pointers.h:260-292 | no slot of any record protects the node a sweep is about to delete |
| HazardSafety.ScanReadSees | src/hazard_pointers.h:264-273 | reading slots in ascending order, a scan sees each protected node of its list or will still come to it |
| HazardSafety.HelpKeepsInv | src/hazard_pointers.h:295-318 | helpScan moves orphaned nodes between lists without losing or duplicating one |
| HazardSafety.AdoptPending | src/hazard_pointers.h:307-314 | popping from an orphaned list and pushing on the own one leaves the total of pending nodes as it was |
| HazardSafety.MultisetSwapPop | src/hazard_pointers.h:283-287 | swap-with-back and pop drop exactly the element at the iterator |
| HazardRuns.NextKeepsInv | src/hazard_pointers.h:113-318 | any step of any thread, client steps included, keeps the whole invariant |
| HazardRuns.HeldIsNeverFreed | src/hazard_pointers.h:259-292 | while a record protects a node continuously, in one slot or from slot to slot, no scan of any thread deletes it |
| HazardRuns.NothingLostOrFreedTwice | src/hazard_pointers.h:250-318 | retired nodes are exactly the freed ones plus the disjoint retire lists; a node retired once is freed at most once |
| HazardRuns.ListsAreOwned | src/hazard_pointers.h:114-147 | an active flag has one holder and only the holder touches the record's retire list |
| HazardHelp.HelpScanAdopts | src/hazard_pointers.h:294-318 | in any run a thread comes back from retireNode, unless shouldScan said no, at the end of a helpScan; each other record there when it began was held by another thread at an instant of it, or had an empty list at an instant at which the helper held it |
| HazardHelp.HelpScanEmpties | src/hazard_pointers.h:294-318 | a helpScan that nobody interrupts leaves every record it found idle idle again and with an empty list |
| HazardHelp.AllocateReuses | src/hazard_pointers.h:113-139 | allocate adds a record only after it has seen each record that was there when it began in use |
| HazardHelp.IdleNamesNothing | src/hazard_pointers.h:141-147 | in any run a record that nobody holds has only null slots |
| HazardWaitFree.OwnStep | src/hazard_pointers.h:250-318 | each step a thread takes inside shouldScan, scan or helpScan ends its retireNode or brings it nearer to the end |
| HazardWaitFree.OtherStep | src/hazard_pointers.h:250-318 | no step of another thread changes how far it still has to go |
| HazardWaitFree.RetireNodeReturns | src/hazard_pointers.h:250-318 | wait-freedom: in any endless run a thread that keeps taking steps comes back from retireNode, whatever the others do |
| HazardBounds.RunBounds | src/hazard_pointers.h:228-236 | in every reachable state each list is below the threshold but for the node being retired |
| HazardBounds.ListBelowR | src/hazard_pointers.h:228-257 | each retire list is strictly below 1.25 H K after every retireNode and adoption |
| HazardBounds.GarbageBelow | src/hazard_pointers.h:228-257 | all unreclaimed garbage is below 1.25 K H H while no retire is under way |
| HazardBounds.GarbageBelowAlways | src/hazard_pointers.h:228-257 | ... and in every state exceeds that by at most one node a record |
| HazardBounds.SweptSize | src/hazard_pointers.h:275-291 | a finished sweep leaves at most one node per slot walked |
| HazardBounds.TriggeredScanFrees | src/hazard_pointers.h:228-291 | a scan the threshold triggered, with no allocate in between, deletes at least H K / 4 nodes of its list |
| HazardScan.Scanner.Collect | src/hazard_pointers.h:263-273 | phase 1 collects exactly the non-null words in the slots of all records |
| HazardScan.Scanner.Sweep | src/hazard_pointers.h:275-291 | the in-place loop yields the swept list and frees exactly the rest |
| HazardScan.Scanner.Scan | src/hazard_pointers.h:260-292 | run alone, scan keeps exactly the nodes some slot names |
| HazardScan.SweptKeepsLive | src/hazard_pointers.h:276-291 | swap-and-pop keeps each live node as often as it was there and no dead one |
| HazardScan.SweepStepKeepsOutcome | src/hazard_pointers.h:276-291 | each step of the concurrent sweep computes the same list as the loop run alone |
| ListSafety.NextKeepsInv | src/concurrent_skip_list_map.h:229-617 | every step of find, insert, erase and firstKey, and of the reclaimer under them, keeps the invariant in any interleaving |
| ListSafety.NeverTouchesFreed | src/concurrent_skip_list_map.h:229-316 | every address the next access goes through is allocated and covered: a slot of the thread's own record protects it, or the thread owes it a step, or has not published it, or it is the head |
| ListSafety.NeverStuck | src/concurrent_skip_list_map.h:229-617 | in every reachable state every thread has a next step: nothing waits for another thread |
| ListSafety.CanBegin | src/concurrent_skip_list_map.h:205-208 | the machine has an initial state, head node in place, for any set of threads |
| ListFind.StepPrevStep | src/concurrent_skip_list_map.h:283-284 | hp2 := cur while hp1 still names it keeps cur protected throughout |
| ListFind.StepCurStep | src/concurrent_skip_list_map.h:307-311 | hp1 := next while hp0 still names it keeps next protected throughout |
| ListFind.FirstCheckStep | src/concurrent_skip_list_map.h:249-254 | a successful re-check of the first link gives a protected node after prev |
| ListFind.NextCheckStep | src/concurrent_skip_list_map.h:262-268 | a successful re-check of cur's link gives a protected successor |
| ListFind.PrevCheckStep | src/concurrent_skip_list_map.h:270-276 | find goes on only if prev is still in the list, unmarked, with cur right after it; otherwise it restarts |
| ListFind.DeadCheckStep | src/concurrent_skip_list_map.h:276-287 | a dead cur goes on to be unlinked; a live one ends find at a key not below the one sought, or find advances |
| ListHeap.UnlinkHeap | src/concurrent_skip_list_map.h:288-295 | the unlinking CAS keeps the list sorted and gap-free |
| ListChange.UnlinkStep | src/concurrent_skip_list_map.h:288-295 | the thread whose unlinking CAS succeeds alone owes the reference it takes out |
| ListChange.DropRefNode | src/concurrent_skip_list_map.h:298-301 | the decrement never wraps and reaches zero exactly when insert owes nothing more on the node |
| ListChange.DropRefStep | src/concurrent_skip_list_map.h:298-305 | whoever reaches zero goes on to retire, anyone else leaves find without a match |
| ListRetire.RetireDeadStep | src/concurrent_skip_list_map.h:299-300 | the unlinker hands over a node that nothing links to any more |
| ListRetire.RetireOwnStep | src/concurrent_skip_list_map.h:606-608 | the inserter that reaches zero hands the node over instead |
| ListHeap.MarkHeap | src/concurrent_skip_list_map.h:350-354 | marking a published node keeps the list's shape |
| ListChange.MarkStep | src/concurrent_skip_list_map.h:350-362 | a successful marking CAS keeps the invariant, whoever marked first |
| ListHeap.PublishHeap | src/concurrent_skip_list_map.h:519-523 | the publishing CAS puts the node at its sorted place |
| ListPublish.PublishStep | src/concurrent_skip_list_map.h:519-523 | publication hands the node to the list while hp3 keeps it for insert |
| ListPublish.SubRefsNode | src/concurrent_skip_list_map.h:602-608 | subtracting the overage never wraps and reaches zero exactly when the unlinker has paid its reference |
| ListOps.TowerStep | src/concurrent_skip_list_map.h:549-560 | the index loop's first load is a marked null; it leaves with nothing linked and height - 1 left to subtract |
| ListOps.ClearSlotStep | src/concurrent_skip_list_map.h:532-538 | clearing the slots in order leaves nothing protecting a node that was never published |
| ListRetire.FreeOwnStep | src/concurrent_skip_list_map.h:536-538 | freeing insert's unpublished node takes it from nobody |
| ListReclaim.ReclaimStep | src/concurrent_skip_list_map.h:101-114 | a scan run from inside the list's own operations frees only what no thread relies on, its own thread included |
| ListEffects.StepLinearizes | src/concurrent_skip_list_map.h:350-362 | the map changes only at insert's publishing CAS (key absent before) and erase's first marking CAS (key present before); every other step stutters |
| ListRuns.EntriesCount | src/concurrent_skip_list_map.h:350-362 | publishing CASes less winning marks is the size of the map at every step, so one erase wins a node |
| ListRuns.NoUseAfterFree | src/concurrent_skip_list_map.h:229-617 | in no run does any thread go through freed memory: what it goes through is allocated and covered by its own hazard, or owed or owned by it |
| ListRuns.HeldIsSameNode | src/concurrent_skip_list_map.h:229-316 | while some slot of a record protects an address it is one and the same node, never freed and handed out again |
| ListRuns.IndexNeverGrows | src/concurrent_skip_list_map.h:549-560 | in every reachable state the head's upper links are the marked nulls of mkNode, and the index loop links nothing |
| ListRuns.HazardsCleared | src/concurrent_skip_list_map.h:337-343 | a call returns with the hazard slots it used cleared; an erase or insert that returns straight from its first find leaves them as they are |
| ListCalls.UpdateTakesEffectOnce | src/concurrent_skip_list_map.h:337-376 | each insert or erase that returns true changed the map at exactly one of its own steps, as its arguments say |
| ListCalls.OthersHaveNoEffect | src/concurrent_skip_list_map.h:390-415 | every other call changes the map at none of its own steps |
| ListCalls.PositiveAnswer | src/concurrent_skip_list_map.h:390-402 | an answer "present", of lookup or of insert, was true at an instant of the call, with the value returned |
| ListCalls.NegativeAnswer | src/concurrent_skip_list_map.h:302-316 | an answer "absent", a lost race to erase included, was true at an instant of the call unless find left by unlinking |
| ListCalls.FirstAnswer | src/concurrent_skip_list_map.h:405-415 | the key firstKey returned was, at one instant of the call, that of the linked node first in the list: the least key of the map if that node was live, and below all keys of the map if not; it returned the default key when the list was empty |
| ListChain.ChainInEveryState | src/concurrent_skip_list_map.h:285-305 | in every reachable state the chain from head is sorted, acyclic and holds every node not yet unlinked, all live ones included |
| ListChain.FrozenForever | src/concurrent_skip_list_map.h:286-288 | a marked node's link never changes while the node exists |
| ListChain.LinkCountExact | src/concurrent_skip_list_map.h:516-517 | link_count is the linked level or its unpaid unlink plus the unsubtracted overage, and never wraps |
| ListChain.RetiredAfterUnlinking | src/concurrent_skip_list_map.h:296-301 | a node about to be retired is unlinked, marked, unreferenced and on no retire list |
| ListChain.RetiredByOne | src/concurrent_skip_list_map.h:602-608 | the unlinker and the inserter never both retire a node |
| ListChain.NoLeak | src/concurrent_skip_list_map.h:517-551 | between operations every node is in the list or on a retire list |
| ListErase.EraseTakesOut | src/concurrent_skip_list_map.h:318-376 | when an erase that marked a node returns, that node has been out of the list at an instant since the mark, unless the second find left by unlinking a different node, and then it stayed in the list throughout |
| ListErase.LeftBehind | src/concurrent_skip_list_map.h:302-376 | with no call under way, every marked node still linked was marked by an erase whose second find left by unlinking a different node |
| ListErase.SecondFindIsAnother | src/concurrent_skip_list_map.h:364-368 | the second find never finds the node that was marked; the address is the same only if that node was freed and its address handed out again |
| SkipListSpec.MatchExactly | src/concurrent_skip_list_map.h:256-315 | on a quiescent list find matches if and only if the key is in the map and no dead node lies before it |
| SkipListSpec.DeadEntryHidesKey | src/concurrent_skip_list_map.h:302-304 | a two-node list on which a present key is answered absent |
| SkipListSpec.MatchWhenNoneDead | src/concurrent_skip_list_map.h:256-315 | without dead nodes find is exact |
| SkipListSpec.InsertContents | src/concurrent_skip_list_map.h:519-523 | linking a node where the scan stopped adds exactly its entry to the map |
| SkipListSpec.KillContents | src/concurrent_skip_list_map.h:350-362 | marking takes exactly one entry out of the map |
| SkipListSpec.UnlinkKeeps | src/concurrent_skip_list_map.h:288-295 | unlinking a dead node leaves the map alone |
| SkipListSpec.DeadEntryStays | src/concurrent_skip_list_map.h:302-304 | from three live nodes, two calls of erase find, mark, find again and return, and a dead node is left in the list |
| SkipList.CutKeeps | src/concurrent_skip_list_map.h:285-304 | unlinking a dead node from the topmost level that links it keeps every level sorted and link_count exact, and takes the last reference only on level 0 |
| SkipList.WalkLevel | src/concurrent_skip_list_map.h:249-312 | on one level find stops after the last node before a dead one, a key not below, or the end, and unlinks a dead one |
| SkipList.CutIsTopmost | src/concurrent_skip_list_map.h:245-313 | the dead node find meets on one level it has already unlinked from the level above |
| SkipList.Locate | src/concurrent_skip_list_map.h:229-316 | over any index, dead nodes included, find keeps the skip list; it reaches the place a plain level-0 scan reaches if and only if the index skipped no dead node, and matches if and only if the key is present with no dead node between where the index left find and the key |
| SkipList.FoundExactly | src/concurrent_skip_list_map.h:229-316 | find changes nothing in the map whatever the index holds |
| SkipList.IndexSkipsDead | src/concurrent_skip_list_map.h:249-304 | a three-node skip list on which the two places differ |
| SkipListIndex.LinkInLevel | src/concurrent_skip_list_map.h:582-587 | linking a node at its place adds exactly its entry to the level |
| SkipListIndex.BuildIndex | src/concurrent_skip_list_map.h:549-600 | insert's loop, over any index, links the node at exactly those of its levels above the one on which it ends; the rest is the overage |
| SkipListIndex.LeavesExactly | src/concurrent_skip_list_map.h:549-600 | the loop ends on the first level, from the top down, that it does not pass |
| SkipListIndex.LeavesAtMark | src/concurrent_skip_list_map.h:549-560 | with no dead node in the index it ends on the highest level whose head link is marked, and on no other |
| SkipListIndex.ReachesExactly | src/concurrent_skip_list_map.h:562-580 | it passes a level it has entered if and only if no dead node below the key lies on its way |
| SkipListIndex.StraysExactly | src/concurrent_skip_list_map.h:562-580 | it takes a marked null for an address if and only if the one dead node on its way is the level's last and below the key |
| SkipListIndex.StraysPastDead | src/concurrent_skip_list_map.h:562-580 | a two-node list with one index level on which it does |
| SkipListIndex.WalkUp | src/concurrent_skip_list_map.h:562-580 | the walk of one level ends as the level's entries say: at n's place, giving up on a marked link, or astray |
| SkipListCursor.EndsIffNoneDead | src/concurrent_skip_list_map.h:419-461 | on a quiescent list extractor ends if and only if no node is dead, and then has every entry |
| SkipListCursor.StepsSpin | src/concurrent_skip_list_map.h:437-451 | at the first dead node it reloads that node for ever |
| SkipListCursor.DeadNodeTrapsExtractor | src/concurrent_skip_list_map.h:437-451 | a one-node list on which it does |
| SkipListMaps.SkipListMap.Find | src/concurrent_skip_list_map.h:229-316 | alone, find returns the scanned place and unlinks the dead node it stopped at, if any |
| SkipListMaps.SkipListMap.Lookup | src/concurrent_skip_list_map.h:390-402 | lookup changes no entry and is exact but for dead nodes on the way |
| SkipListMaps.SkipListMap.Insert | src/concurrent_skip_list_map.h:495-617 | insert adds the entry if and only if the key was absent, whatever is dead; the index stays empty, link_count ends at 1 and height_ stays in bounds |
| SkipListMaps.SkipListMap.Finish | src/concurrent_skip_list_map.h:549-609 | from an empty index the loop leaves at its first load and subtracting the overage leaves one reference, so nothing is retired |
| SkipListMaps.SkipListMap.Erase | src/concurrent_skip_list_map.h:337-376 | erase returns true if and only if the key is present and no dead node precedes it; then exactly its entry and its node are gone, and the node is retired |
| SkipListMaps.SkipListMap.MarkAll | src/concurrent_skip_list_map.h:350-362 | marking the tower from the top down makes the node dead and changes no other entry |
| SkipListMaps.SkipListMap.FirstKey | src/concurrent_skip_list_map.h:405-415 | firstKey is the first node's key; it is in the map if and only if that node is live, and then it is the least |
| SkipListMaps.DeadKeyIsFirst | src/concurrent_skip_list_map.h:405-415 | a two-node list whose first key is not in the map |
| SkipListMaps.SkipListMap.List | src/concurrent_skip_list_map.h:419-480 | entries is done after enough turns of its loops if and only if no node is dead, and then lists the whole map in key order |
| StripedSafety.NextKeepsInv | src/metrics/striped_int64.cc:101-164 | every step of interleaved add, addSlow and value keeps tables nested, fresh cells zero and private, and the total exact |
| StripedSafety.UpdateLands | src/metrics/striped_int64.cc:124-133 | an update through a superseded table changes the current table's sum by exactly its amount |
| StripedSafety.GrowKeepsInv | src/metrics/striped_int64.cc:137-153 | winning or losing the race to grow changes no sum |
| StripedSafety.CreateKeepsInv | src/metrics/striped_int64.cc:107-117 | installing the first table, or losing that race, changes no sum |
| StripedSafety.CellCasKeepsInv | src/metrics/striped_int64.h:142-148 | a successful cell CAS applies this add and logs it once |
| StripedSafety.CanAlwaysWork | src/metrics/striped_int64.cc:124-131 | the masked index and every cell access is in range in every reachable state |
| StripedReader.NoUpdateLost | src/metrics/striped_int64.cc:101-160 | in every reachable state base plus the current table's cells is the sum of the updates that succeeded |
| StripedReader.AppliedExactlyOnce | src/metrics/striped_int64.h:126-152 | each returned add was applied exactly once with its own argument, and no other was applied |
| StripedReader.ReadBetweenTotals | src/metrics/striped_int64.cc:59-84 | with non-negative adds, value() returns a number between the true total at its first step and at its return |
| StripedReader.ReadAddsUp | src/metrics/striped_int64.cc:59-84 | whatever the amounts and whatever it overlaps, value() returns the base at one instant of the call plus, for each cell of a table that was current at an instant of it, what the cell held at its own instant |
| StripedReader.QuietReadIsExact | src/metrics/striped_int64.cc:59-84 | a value() during which no add takes effect returns the exact total, negative amounts included |
| StripedReader.TablesStaySmall | src/metrics/striped_int64.cc:97-139 | no table grows beyond 8 cells unless the counter was built with more |
| StripedReader.MaskIsIndex | src/metrics/striped_int64.cc:124-125 | hash & (size - 1) is in range for every size and takes all the bits of the hash below the size |
| StripedReader.MaskIsRemainder | src/metrics/striped_int64.cc:124-125 | it is the hash modulo the size for the sizes a table grows through |
| StripedStorage.Storage.Expand | src/metrics/striped_int64.cc:172-186 | expand doubles the table, shares every existing cell and allocates one slab for the rest |
| StripedStorage.Storage.Destroy | src/metrics/striped_int64.cc:201-222 | the destructor visits exactly the slab starts 0, 2, 4, 8, ... and deletes exactly what the flags say, each slab once |
| StripedStorage.LayoutSize | src/metrics/striped_int64.cc:166-182 | a table of k slabs has 2 to the k cells |
| StripedStorage.LayoutStart | src/metrics/striped_int64.cc:201-222 | position 2 to the k holds the first cell of slab k |
| StripedStorage.Build | src/metrics/striped_int64.cc:47-57 | Striped64(k) ends with the smallest power-of-two table of at least k cells and leaks nothing |
| StripedTables.StepKeepsInv | src/metrics/striped_int64.cc:107-154 | creating, expanding, winning, losing, disavowing and deleting keep each slab the responsibility of exactly one table |
| StripedTables.OwesWhatIsDue | src/metrics/striped_int64.cc:188-222 | a table that may be deleted deletes exactly the slabs it is responsible for |
| StripedTables.ReachableSlabsLive | src/metrics/striped_int64.cc:135-154 | no deletion takes a slab of the installed table or of any table it replaced |
| StripedTables.EachSlabFreedOnce | src/metrics/striped_int64.cc:166-222 | each slab is deleted at most once, and exactly once when the counter is gone |
| StripedSlabs.TablesFollow | src/metrics/striped_int64.cc:101-160 | every step of the counter is matched by the events of its tables, and creating, racing and losing happen where the source has them |
| StripedSlabs.ThreadKeepsInv | src/metrics/striped_int64.cc:101-160 | through every step each table in use is one that was installed, cell for cell |
| StripedSlabs.TableKeepsInv | src/metrics/striped_int64.cc:144-151 | so it is through disavowing tables and deleting any replaced one, in use or not |
| StripedSlabs.CellsAreLive | src/metrics/striped_int64.cc:59-160 | every cell a thread goes through, in a replaced table too, lies in exactly one slab and that slab has not been deleted |
| StripedSlabs.UsedIsArray | src/metrics/striped_int64.cc:166-182 | the table a thread uses is an installed table's array of pointers, position by position |
| StripedHazard.SlotCovers | src/metrics/striped_int64.cc:101-160 | in every run a thread's slot names the table it uses if and only if its add has not lost a race to grow with load false, and a table so named has not been deleted |
| StripedStale.UsesDeletedTable | src/metrics/striped_int64.cc:104-153 | a run in which such an add is about to use a table that has been deleted and that no slot names |
| ThreadLocals.Grown | src/detail/thread_local_detail.h:121-137 | resize makes 1 + floor(1.5 n) places and keeps every value under its id |
| ThreadLocals.ThreadStorage.Set | src/detail/thread_local_detail.h:69-81 | set stores under the id and disturbs no other |
| ThreadLocals.ThreadStorage.DestroyOne | src/detail/thread_local_detail.h:57-66 | destroying an element runs the deleter on what was there, if anything was |
| ThreadLocals.ThreadStorage.DestroyAll | src/detail/thread_local_detail.h:105-112 | destroyAll runs every stored value's deleter once |
| ThreadRegistry.LinkLast | src/detail/thread_local_detail.h:365-372 | addThread keeps the registry a circular doubly linked list |
| ThreadRegistry.Unlink | src/detail/thread_local_detail.h:374-380 | so does removeThread, at any place in the ring |
| ThreadRegistry.SharedStorage.Create | src/detail/thread_local_detail.h:290-299 | a created id differs from every live one and no thread has a value under it; it is the one freed last, and the counter rises only when none is free |
| ThreadRegistry.SharedStorage.Get | src/detail/thread_local_detail.h:302-313 | get registers a newcomer and changes no value |
| ThreadRegistry.SharedStorage.Set | src/detail/thread_local_detail.h:317-328 | set records one more stored value under a live id |
| ThreadRegistry.SharedStorage.Destroy | src/detail/thread_local_detail.h:330-345 | destroy deletes every thread's value under the id, once, and puts the id last on the free list |
| ThreadRegistry.SharedStorage.Exit | src/detail/thread_local_detail.h:347-355 | a thread that exits leaves the ring and each of its values is deleted once |
| ThreadRegistry.IdTaken | src/detail/thread_local_detail.h:290-299 | taking an id from the counter or the free list gives one that is new to the live ones and clean |
| ThreadRegistry.RowLoses | src/detail/thread_local_detail.h:330-345 | stored values stay exactly the deleted ones plus those still held |
| Snapshots.SortKeeps | src/snapshot.cc:29-34 | the constructor's sort is an ordered permutation |
| Snapshots.Snapshot.Mean | src/snapshot.cc:40-50 | mean times n is the sum |
| Snapshots.Welford | src/snapshot.cc:57-62 | one step of the recurrence adds exactly the change in the sum of squared deviations |
| Snapshots.MomentStep | src/snapshot.cc:57-62 | after each value the running mean is the mean and the exact accumulator the sum of squared deviations from it |
| Snapshots.Snapshot.Variance | src/snapshot.cc:52-69 | variance times n - 1 is exactly what an integer holds that adds, value by value, what each adds to the sum of squared deviations, dropping the fraction every time |
| Snapshots.AccumulatesOnce | src/snapshot.cc:57-62 | those integers are determined by the values |
| Snapshots.AccumulatesBelow | src/snapshot.cc:57-62 | after n values the integer is at most the exact sum of squared deviations and less than n below it |
| Snapshots.AccumulatesExactly | src/snapshot.cc:57-62 | it equals the exact sum if every value adds a whole number |
| Snapshots.QuantileMonotone | src/snapshot.cc:72-94 | valueAt is monotone over all real quantiles and has no jump |
| Snapshots.QuantileBounded | src/snapshot.cc:72-94 | valueAt lies between minimum and maximum and meets them at 0 and 1 |
| Snapshots.QuantileAtOrderStatistic | src/snapshot.cc:81-93 | at quantile k / (n + 1) valueAt is the k-th order statistic |
| Snapshots.OneCell | src/snapshot.cc:85-93 | between two whole positions valueAt is the straight line from one order statistic to the next |
| Snapshots.BranchesMeet | src/snapshot.cc:85-93 | the three branches agree where they meet |
| Snapshots.ValueAt | src/snapshot.cc:72-79 | a quantile outside [0, 1] is an invalid argument and an empty snapshot answers 0 |
| Reservoir.StepKeepsInv | src/metrics/exponential_reservoir.cc:83-95 | no step of update lets entries outgrow the count, the capacity and the erases still owed |
| Reservoir.CapacityBound | src/metrics/exponential_reservoir.cc:83-95 | under every interleaving the live entries are at most 1028 plus the threads between their insert and their erase |
| Reservoir.CapacityAtRest | src/metrics/exponential_reservoir.cc:83-95 | between updates at most 1028 |
| ReservoirOnList.NextFollows | src/metrics/exponential_reservoir.cc:72-95 | over the concurrent list, each step of each call is a step of the reservoir over an atomic map, or none |
| ReservoirOnList.CapacityOnList | src/metrics/exponential_reservoir.cc:83-95 | so in every run the list holds at most 1028 entries plus the threads still owing an erase |
| ReservoirOnList.UpdateDoes | src/metrics/exponential_reservoir.cc:83-95 | over the concurrent list, in any run: an update below capacity puts in its entry if insert says so; one over capacity does so only with a priority above the first key it was told, and then takes out the key it was told last; no update changes the map in any other way |
| Reservoir.EvictTop | src/metrics/exponential_reservoir.cc:87-93 | inserting above the least kept priority and erasing that one keeps the top of all seen |
| Reservoir.TopBetweenUpdates | src/metrics/exponential_reservoir.cc:72-98 | in any run whose updates do not overlap the entries between updates are exactly the top min(n, 1028) of all begun, so far as priorities differ and calls answer truly |
| Reservoir.ExponentialReservoir.Update | src/metrics/exponential_reservoir.cc:72-98 | alone, with distinct priorities, the contents are exactly the top min(n, 1028) seen |

## Left out

- Weak memory ordering: steps are sequentially consistent.
- Progress: retireNode is wait-free; of the other operations no claim is made that they return, only that no thread is ever stuck and what holds on return.
- Index levels under concurrency, which no run populates; `height_` is modelled where one thread runs alone.
- Concurrent `extractor`, `values` and `entries`, which are weakly consistent by declaration; they are modelled on quiescent lists, dead nodes included.
- SkipListIndex.BuildIndex: stops where the loop would go through a marked null, and says so; what the program does from there has no meaning.
- In one-thread code, re-checks that only another thread could make fail (`prev->next_[i] != cur`) are left out.
- Above level 0, `find`'s stores of the head's marked nulls to hp1 before it reaches level 0, and `erase`'s marking of links that stay marked nulls, are not steps of the list machine.
- `clearHazard(1)` and the push_back of `retireNode` are one step: the list pushed on is the thread's own.
- ListRuns.NoUseAfterFree: covers list nodes; the memory of hazard records, which are never freed while in use, is not modelled.
- The destructors of `HazardPointers` and of the map.
- Keys and values of the map are integers with the usual order; any totally ordered key would do.
- Reading a deleted table of the striped counter is taken to give what the table held, so that what happens to its cells can still be stated; table names are never reused, so two tables are never confused by address.
- StripedHazard.SlotCovers: a replaced table is deleted only when no slot that a thread relies on names it; that scans see to that is proved for the reclaimer (`HazardSafety`) and taken over here.
- `Striped64::reset`, which may lose concurrent events by design.
- StripedReader.NoUpdateLost: sums are unbounded integers, so 64-bit wrap-around is not modelled.
- StripedReader.MaskIsIndex: equality with the remainder is proved for sizes 2, 4 and 8; the counter machine takes the index as the hash modulo the size, for tables of any power-of-two size.
- ThreadRegistry.SharedStorage.Exit: unregistering and running the deleters are one operation; a deleter that uses thread-local storage again is not modelled.
- Platform thread-local storage, process-exit self-deletion of `SharedStorage`, moved-from thread-local pointers.
- ThreadLocals.Grown: the element array is a sequence replaced as a whole, so the copying itself is not modelled.
- Snapshots.Snapshot.Variance: the value under the square root; the root, floating-point rounding and 64-bit overflow are not modelled.
- The library's sort is replaced by an insertion sort with the same contract.
- Reservoir.CapacityBound: one landmark epoch; rescaling, the clock, `exp` and the random draw are outside, and priorities are any reals.
- ReservoirOnList.CapacityOnList: priorities are the list's integer keys, of which only the order matters.
- Meters, moving averages, reporters, serialisation and the registry: wrappers, I/O or easy recurrences.
