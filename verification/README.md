# A verified model of the train ticket system

The system sells train tickets on top of its own storage engine. This project models the parts of it
whose correctness is not visible in any one function, and proves what they promise:

- **The paged B+ tree** (`TreeModel` … `TreeIndex`, `BPlusTree`, `PageSlots`, `KeyOrder`). A store of
  pages with parent ids and a leaf chain. Insert splits up to the root, Remove borrows or merges up to the root.
  The tree refines a finite map over every run of commands, keeps the full B+ tree invariant, and never
  needs more than five frames of the buffer pool.
- **The buffer pool** (`LruReplacer`, `PoolModel`, `BufferPool`) and its **linked hash map**
  (`DoubleLinks`, `HashBuckets`, `LinkedHashmap`). A cache that agrees with a plain store from page ids to bytes,
  over a map whose chains and list are links among its nodes. `TreeFrames` shows that a pool of five frames serves
  every page the tree asks for, over any run of commands.
- **The booking commands** (`Seats`, `Booking` … `BookingExample`, `TrainRecord`, `TicketCommands`, `TicketRuns`, `Listings`): seat
  conservation, the waiting queue, and what ties the five databases together, over all runs.
- **The ticket queries** (`Sorting`, `DirectTickets`, `Transfer`): the quicksort, the merge join, and the
  best journey with one change.
- **The red-black tree** (`RbModel` … `RbUnlink`, `RbShape`, `RedBlackTree`): one-pass, top-down insertion and
  removal with parent pointers.
- **Latches** (`RwLatch`, `Crabbing`): the reader-writer latch over any number of threads, and which page
  latches a transaction of the thread-safe tree holds while splits or merges cascade.

## How the model is set up

- **Tree invariants are local.** Each live page or node carries, as ghost data, what its place implies (its
  level, the interval of its keys, its black height); the invariant speaks of one page and its neighbours. That
  it amounts to the textbook definition is proved in `TreeShape` and `RbShape`.
- **Keys of the B+ tree are integers**: the place of a key in the comparator's total order. A scan
  tests each key with the coarser comparator; that its classes are intervals of places is `KeyOrder.ClassEnds`.
- **Page sizes**: `leaf_max >= 2` and `internal_max >= 4`. With `internal_max == 3` a page may have one child
  and then has no sibling to merge with.
- **Pages as the pool sees them**: the tree reads and writes pages only while it holds them pinned. Each fetch,
  new page, write, unpin and deletion it asks for goes into a log; the invariant says that all of it was allowed
  (a page that exists, a frame left for it, no write forgotten) and has led to the present pins. `TreeFrames`
  carries such a log out on the buffer pool.
- **The red-black tree's nodes** are a map from addresses to nodes; LL and RR, and LR and RL, are one method each,
  with the side as a parameter. The node to be removed may change places with its successor; meanwhile it stands
  at a position of its own just behind it.
- **Databases are maps**, as the tree's refinement of a map allows. Scans and sorted scans are the functions
  `Queue` and `NewestFirst`; `Listings` shows that a scan sorted in place is that list.
- **Times** are minutes; a day is the minute it starts. Train ids and station names compare by an injective rank.
- **`refund_ticket` starts its scan at the refunded order's own id** (`backend/src/Management.cpp:966-970`), although
  `document/Intro_by_assistant.md:468` wants the whole queue served. The code is modelled as it is:
  `BookingLaws.WholeQueueServedIff` says exactly when the two agree, and `BookingExample.RunToExample` with
  `BookingRuns.EarlierOrderLeftWaiting` is a run in which they do not.
- **The third key of `query_transfer`** is the time on the first train, not its id as a comment there says.

## Model

| member | source | states |
|---|---|---|
| TreeIndex.Index.Run | database/src/storage/index/b_plus_tree_index_nts.cpp:88-118 | Over any run of inserts, deletes and searches every answer and the final contents are those of a finite map, and the entry count stays the number of keys |
| TreeIndex.Index.InsertEntry | database/src/storage/index/b_plus_tree_index_nts.cpp:88-90 | Adds or overwrites; the count goes up exactly when the key is new |
| TreeIndex.Index.DeleteEntry | database/src/storage/index/b_plus_tree_index_nts.cpp:99-99 | Removes the key; the count goes down exactly when it was there |
| TreeIndex.Index.SearchKey | database/src/storage/index/b_plus_tree_index_nts.cpp:118-118 | Returns the map's value, or nothing when the key is absent |
| BPlusTree.Tree.Insert | database/src/storage/index/b_plus_tree_nts.cpp:115-121 | The whole invariant is kept (by `TreeShape.WholeTree`, a B+ tree whose pages but the root are at least half full), the contents become the map with the key set, true exactly for a new key; all pins are back and all page traffic was allowed |
| BPlusTree.Tree.StartNewTree | database/src/storage/index/b_plus_tree_nts.cpp:154-164 | An empty tree becomes a valid tree of one entry |
| BPlusTree.Tree.InsertIntoLeaf | database/src/storage/index/b_plus_tree_nts.cpp:172-196 | Same promise as Insert for a tree that is not empty, through any cascade of splits |
| BPlusTree.Tree.LeafInsert | database/src/storage/page/b_plus_tree_leaf_page.cpp:86-112 | The leaf takes the entry in order or overwrites it; structure holds; sizes hold unless the leaf is now full |
| BPlusTree.Tree.SplitPage | database/src/storage/index/b_plus_tree_nts.cpp:205-220 | The page is cut into two that share its slots evenly, to within one; moved children point to the new page, both halves stay pinned |
| BPlusTree.Tree.InsertIntoParent | database/src/storage/index/b_plus_tree_nts.cpp:229-268 | From a split page and its new sibling the whole invariant is restored, whatever cascades upward |
| BPlusTree.Tree.NewRoot | database/src/storage/index/b_plus_tree_nts.cpp:231-247 | A split root gets a new root above it, and the tree is valid again |
| BPlusTree.Tree.LinkNewPage | database/src/storage/page/b_plus_tree_internal_page.cpp:108-128 | The parent lists the new page right after the old one; structure holds, and only the parent can now be full |
| BPlusTree.Tree.SetParents | database/src/storage/page/b_plus_tree_internal_page.cpp:164-170 | Every listed child gets the new parent id, one pinned page at a time, and pins end where they began |
| BPlusTree.Tree.Remove | database/src/storage/index/b_plus_tree_nts.cpp:279-292 | The whole invariant is kept, the contents lose exactly the key, true exactly when it was there; all pins are back and all page traffic was allowed |
| BPlusTree.Tree.LeafRemove | database/src/storage/page/b_plus_tree_leaf_page.cpp:174-190 | The leaf loses the entry; nothing at all changes when the key is absent |
| BPlusTree.Tree.CoalesceOrRedistribute | database/src/storage/index/b_plus_tree_nts.cpp:301-333 | From a tree with one page one entry short the whole invariant is restored and the contents stay |
| BPlusTree.Tree.Coalesce | database/src/storage/index/b_plus_tree_nts.cpp:343-374 | After a merge only the parent can be short; depth and contents stay |
| BPlusTree.Tree.Redistribute | database/src/storage/index/b_plus_tree_nts.cpp:386-430 | After a borrow structure and sizes hold everywhere and all pins are back |
| BPlusTree.Tree.AdjustRoot | database/src/storage/index/b_plus_tree_nts.cpp:439-477 | A root one short is deleted in favour of its only child or of nothing, or stays, and the tree is valid with the same contents |
| BPlusTree.Tree.SetRoot | database/src/storage/index/b_plus_tree_nts.cpp:573-583 | The root and the record of it in the header page agree; pins and unsaved pages end where they began |
| BPlusTree.Tree.PinFamily | database/src/storage/index/b_plus_tree_nts.cpp:312-320 | Parent first, then the sibling chosen from it: page, sibling and parent are pinned, and the two are neighbours under it |
| BPlusTree.Tree.FindLeafPage | database/src/storage/index/b_plus_tree_nts.cpp:524-560 | Ends at the leaf responsible for the key with only it and the header page pinned |
| BPlusTree.Tree.GetValue | database/src/storage/index/b_plus_tree_nts.cpp:40-54 | Found exactly when the map has the key, with the map's value |
| BPlusTree.Tree.ScanKey | database/src/storage/index/b_plus_tree_nts.cpp:67-105 | Across any number of leaves: in key order, without repeats, exactly the values of the keys from the probe on that the comparator does not tell from it, the test at each key being the comparator's |
| TreeSplit.SplitKeepsStruct | database/src/storage/index/b_plus_tree_nts.cpp:188-193 | A split keeps depth, key intervals, parent ids and the leaf chain |
| TreeMerge.MergeKeepsStruct | database/src/storage/index/b_plus_tree_nts.cpp:354-367 | A merge keeps depth, key intervals, parent ids and the leaf chain |
| TreeBorrow.ShiftKeepsStruct | database/src/storage/index/b_plus_tree_nts.cpp:397-424 | A borrow, either way, keeps depth, key intervals, parent ids and the leaf chain |
| TreeBorrow.BorrowsOne | database/src/storage/index/b_plus_tree_nts.cpp:386-430 | Exactly one slot changes sides; what the two pages hold together stays, in order |
| TreeSizes.SplitSizes | database/src/storage/page/b_plus_tree_page.cpp:34-34 | The slots of a full page are shared evenly, to within one, and both halves are within bounds |
| TreeSizes.MergeSizes | database/src/storage/index/b_plus_tree_nts.cpp:323-325 | A merged page is not full, and only the parent can have become short |
| TreeSizes.ShiftSizes | database/src/storage/index/b_plus_tree_nts.cpp:328-332 | After a borrow no page is short |
| TreeShape.StructIsBTree | database/src/include/storage/page/b_plus_tree_internal_page.h:13-18 | The invariant implies the recursive definition: equal leaf depth, no page full, every page but the root at least half full (twice its slots and one more make the maximum), separator intervals, parent ids |
| TreeShape.WholeTree | database/src/include/storage/page/b_plus_tree_internal_page.h:13-18 | From the root that definition holds; the leaves from left to right are linked to one another, end in no page, and list exactly the map's keys in increasing order |
| TreePages.Lookup | database/src/storage/page/b_plus_tree_internal_page.cpp:70-85 | The binary search ends at the slot whose interval holds the key |
| TreePages.KeyIndex | database/src/storage/page/b_plus_tree_leaf_page.cpp:45-60 | The first slot with a key not below the given one, -1 when there is none |
| TreePages.ValueIndex | database/src/storage/page/b_plus_tree_internal_page.cpp:45-53 | The first slot holding a child, -1 when there is none |
| TreePool.RoomFor | database/src/storage/index/b_plus_tree_nts.cpp:135-138 | With header, page, sibling and parent pinned a fifth page still makes at most five |
| TreeFrames.RoomMeansFrame | database/src/buffer/buffer_pool_manager.cpp:27-60 | If the pinned pages and one more are no more than the frames, that page is in a frame or some frame is not pinned |
| TreeFrames.FiveFramesSuffice | database/src/storage/index/b_plus_tree_nts.cpp:135-138 | With the header page and any three more pinned, one of them perhaps twice, a pool of five frames never lacks one |
| TreeFrames.Serve | database/src/buffer/buffer_pool_manager.cpp:62-235 | Each fetch, new page, write, unpin and deletion that is allowed succeeds, and the books stay right: pins, unsaved pages, known pages and the next id |
| TreeFrames.ServeAll | database/src/buffer/buffer_pool_manager.cpp:62-235 | Any course of allowed traffic, whatever bytes it writes, goes through without a failure and ends with the books right |
| TreeFrames.NewIndexPool | database/src/storage/index/b_plus_tree_index_nts.cpp:52-56 | A new pool with its header page made and written agrees with the books a tree starts from |
| TreeFrames.ServeTree | database/src/storage/index/b_plus_tree_nts.cpp:135-138 | Everything a valid tree has asked for since it was made is served by a new pool with the same frames, and both agree at the end |
| TreeFrames.AnyRun | database/src/storage/index/b_plus_tree_index_nts.cpp:88-118 | For any run of commands on a new index with five frames or more: the answers of a finite map, and no page request ever fails |
| PageSlots.Slots.Insert | database/src/storage/page/b_plus_tree_leaf_page.cpp:106-112 | Exchanging neighbours down from the end inserts the entry and keeps the order of the rest |
| PageSlots.Slots.Remove | database/src/storage/page/b_plus_tree_leaf_page.cpp:185-190 | Exchanging neighbours up to the end removes exactly that entry |
| PageSlots.Slots.MoveHalfTo | database/src/storage/page/b_plus_tree_leaf_page.cpp:122-130 | The two pages together hold the old entries in order, cut at the minimum size |
| PageSlots.Slots.MoveAllTo | database/src/storage/page/b_plus_tree_leaf_page.cpp:200-203 | The recipient gets all entries appended, the source is empty |
| PageSlots.Slots.MoveFirstToEndOf | database/src/storage/page/b_plus_tree_leaf_page.cpp:212-224 | The first entry moves to the end of the other page |
| PageSlots.Slots.MoveLastToFrontOf | database/src/storage/page/b_plus_tree_leaf_page.cpp:231-247 | The last entry moves to the front of the other page |
| KeyOrder.ScanClass | database/src/storage/index/b_plus_tree_nts.cpp:67-105 | A scan of the tree with category 1 lists, in key order, exactly the values of the stored keys with the probe's string and first number and a second number not below its own |
| KeyOrder.ClassEnds | database/src/include/type/string_int_int.h:73-91 | Among any keys, those of the probe's class from the probe on are the keys below some bound |
| KeyOrder.CompareFields | database/src/include/type/string_int_int.h:73-91 | Category 1 compares string and first number, category 2 string, first and second number in this order |
| KeyOrder.LeastProbe | database/src/include/type/string_int_int.h:73-91 | A probe whose second number is least among those with its string and first number comes before all of them |
| Replacer.LruReplacer.Victim | database/src/buffer/lru_replacer.cpp:9-18 | On the linked hash map: begin and erase give up the frame that came in first, if any |
| Replacer.LruReplacer.Pin | database/src/buffer/lru_replacer.cpp:20-26 | On the linked hash map: find and erase take the frame out of the queue, the others keep their order |
| Replacer.LruReplacer.Unpin | database/src/buffer/lru_replacer.cpp:28-40 | On the linked hash map: erase and operator[] put the frame at the end of the queue unless the queue is full |
| BufferPool.BufferPoolManager.FindFrame | database/src/buffer/buffer_pool_manager.cpp:27-60 | A free frame first, else the one unpinned longest ago with its dirty page written back; fails exactly when every frame is pinned; clients notice nothing |
| BufferPool.BufferPoolManager.FetchPage | database/src/buffer/buffer_pool_manager.cpp:62-103 | Returns the last contents clients gave the page, pinned once more; fails exactly when every frame is pinned; for a page nobody created, the throw and the frame it leaves pinned. The invariant survives exactly when there was no frame or the page exists |
| BufferPool.BufferPoolManager.UnpinPage | database/src/buffer/buffer_pool_manager.cpp:105-134 | One pin less, dirty once reported dirty; true exactly when there was a pin to give up |
| BufferPool.BufferPoolManager.WriteData | database/src/storage/index/b_plus_tree_nts.cpp:173-184 | A client's write to a page it has pinned is what the store holds from then on |
| BufferPool.BufferPoolManager.FlushPage | database/src/buffer/buffer_pool_manager.cpp:136-160 | The disk gets the page's contents; the store stays |
| BufferPool.BufferPoolManager.NewPage | database/src/buffer/buffer_pool_manager.cpp:162-193 | A fresh id with a pinned page of 32768 zeros; nothing else in the store changes |
| BufferPool.BufferPoolManager.DeletePage | database/src/buffer/buffer_pool_manager.cpp:195-235 | Gives back the frame of an unpinned page, refuses a pinned one |
| BufferPool.BufferPoolManager.FlushAllPages | database/src/buffer/buffer_pool_manager.cpp:237-248 | Afterwards the disk is the store |
| BufferPool.Partition | database/src/buffer/buffer_pool_manager.cpp:27-60 | Free list, replacer queue and pinned frames partition the pool |
| BufferPool.TableInjective | database/src/buffer/buffer_pool_manager.cpp:90-101 | No two pages share a frame |
| BufferPool.NoFrameIff | database/src/buffer/buffer_pool_manager.cpp:27-60 | There is no frame to be had exactly when all are pinned |
| BufferPool.VictimIsOldest | database/src/buffer/lru_replacer.cpp:9-40 | The victim's last unpin is the oldest of all unpinned frames |
| BufferPool.PinnedPageStays | database/src/buffer/buffer_pool_manager.cpp:62-103 | Fetching another page moves or changes no pinned page |
| BufferPool.QueueHasRoom | database/src/buffer/lru_replacer.cpp:28-40 | The replacer's size limit never turns a frame away |
| DoubleLinks.SpliceLinks | database/src/include/container/linked_hashmap.hpp:77-98 | The writes that link a node in leave one list, with the node at that place |
| DoubleLinks.UnspliceLinks | database/src/include/container/linked_hashmap.hpp:103-116 | The writes that unlink a node through its own links leave the list without it |
| HashBuckets.PushFront | database/src/include/container/linked_hashmap.hpp:143-148 | A node linked in behind the sentinel of its bucket: every chain is still linked and holds just the entries that belong there |
| HashBuckets.PullOut | database/src/include/container/linked_hashmap.hpp:103-116 | A node unlinked from its chain: every chain is still linked and holds just the other entries |
| LinkedHashmap.LinkedHashmap.Find | database/src/include/container/linked_hashmap.hpp:128-138 | Following one chain decides for the whole map |
| LinkedHashmap.LinkedHashmap.Insert | database/src/include/container/linked_hashmap.hpp:143-151 | The link writes put a new key last in the list and into its chain; every other entry stays |
| LinkedHashmap.LinkedHashmap.Rehash | database/src/include/container/linked_hashmap.hpp:183-193 | Walking the list and relinking every node gives linked chains of the new size; contents and order stay |
| LinkedHashmap.LinkedHashmap.Expand | database/src/include/container/linked_hashmap.hpp:176-194 | Contents and order stay; with one node more than buckets the buckets double, and there are no more nodes than buckets |
| LinkedHashmap.LinkedHashmap.Shrink | database/src/include/container/linked_hashmap.hpp:199-217 | Contents and order stay; with more than 8192 nodes and less than a quarter of the buckets used the buckets halve, and there are no more nodes than buckets |
| LinkedHashmap.LinkedHashmap.InsertPair | database/src/include/container/linked_hashmap.hpp:575-585 | New keys are appended, known keys change nothing, and the flag tells which |
| LinkedHashmap.LinkedHashmap.At | database/src/include/container/linked_hashmap.hpp:504-515 | The key's node, which comes in last with the default value when it is new |
| LinkedHashmap.LinkedHashmap.Delete | database/src/include/container/linked_hashmap.hpp:103-116 | Unlinking a node through its own four links takes it, and nothing else, out of the list and its chain |
| LinkedHashmap.LinkedHashmap.Erase | database/src/include/container/linked_hashmap.hpp:590-599 | Exactly that entry goes, the rest keep their order; the end iterator and an iterator of another map are refused |
| LinkedHashmap.LinkedHashmap.Begin | database/src/include/container/linked_hashmap.hpp:531-531 | The first entry in insertion order, or the end |
| Seats.ModifySeat | backend/src/TrainSystem.cpp:60-63 | Exactly the segments l to r change, each by the value |
| Seats.QuerySeat | backend/src/TrainSystem.cpp:65-70 | The minimum over the segments |
| Seats.MinDecides | backend/src/Management.cpp:812-829 | The minimum reaches a number exactly when every segment has that many seats |
| Booking.SetOrderKeeps | backend/src/Management.cpp:829-846 | Any change of one order keeps all five databases in step and the seats conserved |
| BookingQueue.QueueLists | backend/src/Management.cpp:966-974 | The scan gives exactly the waiting orders of the train and day from that id on, ids rising |
| BookingQueue.NoneLeftBehind | backend/src/Management.cpp:976-1006 | After the greedy pass no visited order whose ride has a stop in common with the refunded one and which still waits would fit |
| BookingQueue.UnlistedWaits | backend/src/Management.cpp:966-986 | Orders the pass does not visit are left as they are |
| BookingLaws.RefundKeeps | backend/src/Management.cpp:896-1015 | Any refund keeps all databases in step and the seats conserved |
| BookingLaws.RefundServes | backend/src/Management.cpp:966-1006 | After refunding a bought order, no waiting order with a larger id that starts no later than the refunded ride ends and ends no earlier than it starts would fit |
| BookingLaws.SkippedGainNothing | backend/src/Management.cpp:978-980 | Orders the interval test skips, whose rides end before the refunded one starts or start after it ends, gained no seat |
| BookingLaws.ServedInTurn | backend/src/Management.cpp:976-1006 | An order leaves the queue exactly if its ride has a stop in common with the refunded one and fits into what those before it in the queue have left |
| BookingLaws.ReleaseFrees | backend/src/Management.cpp:950-960 | Giving an order back frees its seats on the segments of its ride, if it held any, and changes no other seat |
| BookingLaws.RefundKeepsNoFit | backend/src/Management.cpp:957-1011 | "No waiting order would fit" survives refunds of bought orders older than all waiting for that train and day |
| BookingLaws.RefundWaitingKeepsNoFit | backend/src/Management.cpp:936-947 | It survives refunds of waiting orders |
| BookingLaws.BuyKeepsNoFit | backend/src/Management.cpp:829-852 | It survives every purchase |
| BookingLaws.WholeQueueServedIff | backend/src/Management.cpp:966-970 | The refund equals serving the whole queue exactly when no older waiting order fits into the freed seats |
| BookingLaws.StatusMoves | backend/src/Management.cpp:931-1004 | A refund moves the named order to refunded and others at most from pending to success |
| BookingTrains.PublishKeeps | backend/src/Management.cpp:363-401 | Releasing a train keeps all databases in step |
| BookingTrains.NewestFirstComplete | backend/src/Management.cpp:912-924 | The user's list misses no order |
| Listings.SortedScanIsNewestFirst | backend/src/Management.cpp:917-924 | A scan of the user's orders sorted by order_cmp is the list of the model |
| Listings.SortedScanIsQueue | backend/src/Management.cpp:966-974 | A scan of the queue sorted by pending_order_cmp is the list of the model |
| BookingRuns.RunKeepsIntegrity | backend/src/Management.cpp:322-1015 | In every state of every run: seat records and station records exist exactly for released trains, the queue holds exactly the pending orders |
| BookingRuns.SeatsConserved | backend/src/Management.cpp:812-1011 | On every segment, train, day and state of a run: seats left are not negative and with the tickets held make up the train |
| BookingRuns.OrdersOnlyMoveOn | backend/src/Management.cpp:838-1004 | No order is lost or goes back; a refund is final |
| BookingRuns.NobodyWaitsWhoFits | backend/src/Management.cpp:829-1006 | As long as only the oldest bought orders are given back, nobody ever waits who would fit |
| TicketRuns.Run | backend/src/Management.cpp:322-1015 | Any list of commands, carried out by the methods below, is a run in the sense of these laws |
| TicketRuns.TwoRuns | backend/src/Management.cpp:322-1015 | From empty databases, whatever commands come: the databases are in step, and every order of an earlier time has only moved on |
| TicketRuns.BuyAfter | backend/src/Management.cpp:752-853 | From empty databases, after whatever commands: a purchase costs, for each passenger, the sum of the prices that the train's add_train listed for the legs between the two stations asked for |
| BookingRuns.EarlierOrderLeftWaiting | backend/src/Management.cpp:966-970 | A state in which a refund frees the whole train and an older order keeps waiting |
| BookingExample.RunToExample | backend/src/Management.cpp:966-970 | Six commands lead from empty databases to that state |
| TrainRecord.NewTrain | backend/src/TrainSystem.cpp:6-50 | Fares are sums of legs; each arrival is a leg after the last departure, each departure a wait after the arrival |
| TrainRecord.FareIsSumOfLegs | backend/src/TrainSystem.cpp:17-25 | The difference of two prefix sums is the sum of the prices listed for the legs between |
| TrainRecord.TimeIsLegsAndWaits | backend/src/TrainSystem.cpp:26-50 | From leaving one stop to arriving at a later one: the times listed for the legs and for the waits between |
| TrainRecord.TotalIsSum | backend/src/TrainSystem.cpp:17-25 | The sum meant here: nothing for no leg, the price for one, and it adds up |
| TrainRecord.TimesRise | backend/src/TrainSystem.cpp:38-48 | A train arrives at a later stop no earlier than it left an earlier one |
| TicketCommands.TrainManagement.AddTrain | backend/src/Management.cpp:322-361 | Adds an unreleased train with the listed stops, prices and times unless the id is taken, and notes the listing; databases stay in step |
| TicketCommands.TrainManagement.DeleteTrain | backend/src/Management.cpp:476-490 | Deletes a train exactly when it is there and not released; databases stay in step |
| TicketCommands.TrainManagement.ReleaseTrain | backend/src/Management.cpp:363-401 | Exactly once per train: full seats for each sale day, a record for each stop, nothing else |
| TicketCommands.TrainManagement.FindStops | backend/src/Management.cpp:790-797 | Both names are resolved to stops, or reported as unknown |
| TicketCommands.TrainManagement.Quote | backend/src/Management.cpp:776-829 | A refusal of a request that is in order means no ride that serves it has the seats and the buyer would not wait |
| TicketCommands.TrainManagement.BuyTicket | backend/src/Management.cpp:752-853 | Bought, queued or refused as the seats allow: the train leaves the first station within the day asked for; the price is the sum of the prices listed for the legs, the charge that times the number; a purchase takes exactly that many seats on exactly the segments of the ride, queueing none; databases stay in step |
| TicketCommands.TrainManagement.RefundTicket | backend/src/Management.cpp:896-1015 | The x-th newest order is refunded and the queue served greedily; every refusal changes nothing; databases stay in step |
| TicketCommands.TrainManagement.RefundBought | backend/src/Management.cpp:949-1011 | The loop over the queue writes what the greedy fold says |
| TicketCommands.SeatsOnRecord | backend/src/Management.cpp:807-810 | The day record of a ride on sale is always there |
| Sorting.Partition | backend/src/Management.cpp:34-43 | The inner loops stay in range without bounds tests; the pointers cross with nothing above the pivot left and nothing below it right |
| Sorting.Sort | backend/src/Management.cpp:30-48 | For any strict weak order: sorted, a permutation, nothing outside the range touched |
| DirectTickets.Join | backend/src/Management.cpp:525-549 | The two-pointer walk gives the nested loop's list, in the same order |
| DirectTickets.InNested | backend/src/Management.cpp:525-549 | That list holds exactly the pairs on one train, in order, on a sale day |
| DirectTickets.QueryTicket | backend/src/Management.cpp:492-576 | Offered are exactly the rides on trains that leave the first station within the day asked for, with the trains' own times and fares and the seats left; times, or prices, do not fall along the list, and among equals train ids rise |
| Transfer.EarliestDay | backend/src/Management.cpp:657-666 | A day catches the connection exactly when it is not before the computed one |
| Transfer.FirstCatch | backend/src/Management.cpp:657-672 | The chosen day is the first sale day that works, and the skip is taken exactly when none does |
| Transfer.TryPair | backend/src/Management.cpp:632-747 | All shared stops of two trains are covered by sorting and walking both lists once |
| Transfer.QueryTransfer | backend/src/Management.cpp:578-750 | By cost: no journey with one change is cheaper, and none of the same price shorter; by time the other way round; among full ties none has the shorter first ride. Over all shared stops and sale days, boarding within the day asked for; none exactly when there is none |
| Transfer.JourneyTerms | backend/src/Management.cpp:673-711 | A journey's price is the sum of the prices listed for its legs; its duration is the time listed for both rides with the wait between them, which is never negative |
| RedBlackTree.RedBlackTree.Find | backend/libs/map.hpp:153-162 | The node with the key, or none when no entry has it |
| RedBlackTree.RedBlackTree.End | backend/libs/map.hpp:133-151 | The node with the smallest, or largest, key |
| RedBlackTree.RedBlackTree.Insert | backend/libs/map.hpp:164-201 | An absent key: a red-black tree again, with exactly one entry more |
| RedBlackTree.RedBlackTree.InsertAdjust | backend/libs/map.hpp:300-319 | Does to the pointers what the rotations of the specification do |
| RedBlackTree.RedBlackTree.Remove | backend/libs/map.hpp:203-297 | A present key: a red-black tree again, with exactly that entry less |
| RedBlackTree.RedBlackTree.RemoveAdjust | backend/libs/map.hpp:322-418 | The node at hand is made red, or the node to go has a red right kid; order, links, heights and colours hold |
| RedBlackTree.RedBlackTree.Exchange | backend/libs/map.hpp:223-269 | The pointer writes exchange the two nodes, near or far apart |
| RedBlackTree.RedBlackTree.Rotate | backend/libs/map.hpp:420-465 | LL and RR: the kid takes its father's place, the root is found again |
| RedBlackTree.RedBlackTree.RotateTwice | backend/libs/map.hpp:467-524 | LR and RL: the inner grandkid takes the place, the root is found again |
| RbRotate.TurnRedKeeps | backend/libs/map.hpp:420-442 | Rotation about a red kid keeps search order, parent pointers and black heights |
| RbRotate.TwistIsTwoTurns | backend/libs/map.hpp:467-494 | The writes of a double rotation are two single rotations |
| RbColor.FlipKeeps | backend/libs/map.hpp:177-180 | Exchanging the colours of a node and its two kids keeps black heights |
| RbDescent.Recolour | backend/libs/map.hpp:174-186 | A recolouring with the rotation it calls for leaves a red-black tree, and the descent goes on further down |
| RbDescent.Land | backend/libs/map.hpp:187-198 | The new leaf with the rotation it calls for leaves a red-black tree |
| RbRemove.BorrowFar | backend/libs/map.hpp:345-349 | Case 1.2.1: the far red kid of the brother pays; the invariant holds |
| RbRemove.BorrowNear | backend/libs/map.hpp:350-354 | Case 1.2.2: the near red kid of the brother pays; the invariant holds |
| RbRemove.Sink | backend/libs/map.hpp:338-342 | Case 1.1: the father's red moves down to both kids; the invariant holds |
| RbRemove.Lift | backend/libs/map.hpp:371-415 | Cases 2.1 and 2.2.1: a black node and its one red kid change places; the invariant holds |
| RbSwap.SwapKeeps | backend/libs/map.hpp:222-269 | Exchanging a node with its successor keeps order, links and black heights |
| RbUnlink.UnlinkKeeps | backend/libs/map.hpp:278-290 | The node unlinked is a red leaf, and what remains is a red-black tree |
| RbShape.EqualBlackHeights | backend/libs/map.hpp:164-297 | All paths out of the tree pass equally many black nodes |
| RbShape.NoPathTwiceAsLong | backend/libs/map.hpp:164-297 | No path out of the tree is more than twice as long as another |
| RbShape.SearchOrder | backend/libs/map.hpp:153-162 | Whatever is reached to the left of a node has a smaller key, to its right a greater one |
| RbShape.AllReached | backend/libs/map.hpp:153-162 | Every node of the store is reached from the root |
| RwLatch.StepKeepsInv | database/src/include/common/rwlatch.h:28-74 | Every step of any thread keeps: one claimant, counted readers, a writer without readers |
| RwLatch.WriterIsAlone | database/src/include/common/rwlatch.h:28-74 | In every run a writer excludes writers and readers |
| RwLatch.NoNewReader | database/src/include/common/rwlatch.h:51-57 | Once a writer has claimed the latch nobody becomes a reader |
| RwLatch.ReadersShare | database/src/include/common/rwlatch.h:51-57 | In every run, without a claim by a writer and with fewer than 2^32 - 1 readers, another reader gets in at once beside them |
| RwLatch.ReaderWaits | database/src/include/common/rwlatch.h:51-57 | Otherwise it goes to sleep |
| RwLatch.WriterEnters | database/src/include/common/rwlatch.h:28-39 | In every run a writer gets in at once if nobody is there, keeps new readers out while it waits for those inside, and sleeps behind another writer |
| RwLatch.NobodyLeftAsleep | database/src/include/common/rwlatch.h:28-74 | Below the reader limit, who sleeps unsignalled waits for a writer or for readers that are there |
| RwLatch.NoDeadlock | database/src/include/common/rwlatch.h:28-74 | Below the reader limit, in every run, if some thread uses the latch then one that does can go on without being woken |
| Crabbing.LatchedTree.CrabToLeaf | database/src/storage/index/b_plus_tree_ts.cpp:683-748 | Latched are exactly the pages from the last one down that an insertion leaves unfilled (size + 1 below the maximum) or a removal at least half full (twice the size above the maximum); all below it do not |
| Crabbing.LatchedTree.UnlatchPage | database/src/storage/index/b_plus_tree_ts.cpp:751-765 | The root latch goes exactly with a page that is a root |
| Crabbing.LatchedTree.InsertIntoParent | database/src/storage/index/b_plus_tree_ts.cpp:306-355 | A split cascade writes no entries but those of pages further up the latched path, and the parent is written |
| Crabbing.LatchedTree.InsertIntoLeaf | database/src/storage/index/b_plus_tree_ts.cpp:241-272 | A pessimistic insert writes the leaf, whose size is then the same, one more, or half, and latched pages only; it lets go of every latch, and of the root latch exactly once |
| Crabbing.LatchedTree.CoalesceOrRedistribute | database/src/storage/index/b_plus_tree_ts.cpp:442-475 | Every existing page whose entries a merge or borrow cascade writes is latched, the neighbour by name; a short page, its neighbour and their parent are all written; the root changes exactly when every page from here up falls short and fits with its neighbour, and the root is left with its last kid or entry gone |
| Crabbing.LatchedTree.Rebalance | database/src/storage/index/b_plus_tree_ts.cpp:485-572 | Merge and borrow write the page, its neighbour and the parent, all three latched; it merges exactly when both fit into one page, which leaves one of them empty, and else moves one entry |
| Crabbing.LatchedTree.RemoveFromLeaf | database/src/storage/index/b_plus_tree_ts.cpp:366-384 | A pessimistic removal writes only latched pages and their latched neighbours and lets go of every latch; of the root latch it lets go once, and more than once exactly if the key is there and the sizes on the path and of the neighbours let the merges reach and change the root |
| Crabbing.RootsThatCollapse | database/src/storage/index/b_plus_tree_ts.cpp:583-630 | Trees on which that happens: a root leaf with one entry, and two leaves of two entries under a root |

## Left out

- Disk files, byte layout of pages, `reinterpret_cast` and header-page records: the disk is a map from page ids to contents.
- BufferPool.BufferPoolManager.FetchPage: after a page that was never created or has been deleted is fetched, the state is given but what later calls do from it is not: a frame stays pinned for a page no client has.
- TreeFrames.NewIndexPool: the first fetch of the header page of a new file, which throws, and the unpin and deletion that clean up after it are not modelled; the pool starts empty.
- BufferPoolManager::Initialize and index Clear: Initialize keeps page_table_ and Clear keeps size_, so the invariants are for runs without them.
- The index constructor leaves size_ unset for a new file; a new index is modelled with size 0 and order numbers start at 0.
- BPlusTree.Tree.LeafInsert: the page is a pair of sequences here; the shift loops over the slot array are in PageSlots.
- Pages emptied by merges: the source leaks them, and the model keeps them in the store without use.
- Sorting.Sort: the array and vector forms are one method.
- LinkedHashmap.LinkedHashmap.Erase: nodes and tables no longer linked stay in the store, where the source frees them. The pool's page_table_ is a map, as the hash map's contract allows.
- RedBlackTree.RedBlackTree.Insert: the key is absent, as the map checks before it calls; likewise the key to remove is present. Copying, iterators and destruction of the map are not modelled.
- Crabbing.LatchedTree.CrabToLeaf: which child the keys lead to is given as the path, and each page's neighbour with it; the shared-latch descents, the change from optimistic to pessimistic attempts, and linearizability of the thread-safe tree are not modelled.
- Transfer.QueryTransfer: times and prices are assumed small enough for 32-bit sums of four of them, sale periods not empty, and no station twice on a train.
- TicketCommands.TrainManagement.AddTrain: as many prices, times and names as the station count says, none negative, and sale dates at midnight are assumed, as the command line promises.
- TicketCommands.TrainManagement.BuyTicket: at least one ticket and a date at midnight are assumed; account commands and log-in are a set of users.
- TicketCommands.TrainManagement.RefundTicket: the place in the list is at least 1.
- 32-bit overflow of prices, times and ids: integers are unbounded.
- Command parsing, output strings, query_train, query_order, accounts, rollback, clean, the thread pool, benchmarks and the older storage layer: they format or forward what the modelled parts compute, or are not used by them.
