# A verified model of the limit order book, its queues and its engine

The repository is a low-latency matching engine in C++. This project models its four hard components in Dafny and
proves what they are for.

**The limit order book** keeps price levels with FIFO queues in five interlocking mutable structures: sorted parallel
level arrays, doubly-linked lists threaded through slot arrays, a free list over the same slots, an open-addressed
hash index, and per-level aggregates. The repository also holds a small map-of-queues book against which the fast one
is compared. That small book is the specification here (`RefModel`), extended with the level limit that the fast book
has. `Replay.ReplayFromEmpty` shows that the array-based book gives the same return values, fills and best quotes on
every event list, for all capacities and every hash function, up to and including the first order that comes to rest
under the id of a resting order. Everything else the book promises is then
proved once, on the small book, for every run: it is never crossed, has no empty level, executes in price-time order,
never trades an account with itself or beyond a limit, fills or kills atomically, and conserves quantity. These laws are
said in prices, quantities, ids and accounts, not in the functions that the book and its reference share.

**The multi-producer multi-consumer queue** is a transition system over any number of threads, each between two atomic
accesses, with compare-and-swap failing spuriously at will. The proofs cover every interleaving.

**The single-producer single-consumer ring** is a transition system in which each load of the peer's position may be
stale. Its pushes and pops take effect atomically, and its refusals are those of an atomic bounded queue when the load is
fresh; what a stale refusal means is stated exactly. **The engine** is modelled twice: as a pipeline whose queue
operations are single steps, and access by access over its two rings. Every run of the second is a run of the first.
Submission, processing, shutdown drain and dropped reports are covered under every interleaving, and so is progress: a
call left alone ends, a running engine catches up, and a stopped one exits.

**The latency histogram** is shown to read off its buckets the order statistic of the sorted samples, with an error
bound, after sequential recording and after concurrent recording once all calls have returned.

| file | content |
|---|---|
| `Types`, `RefModel`, `RefLaws` | shared types, the reference book, what every event keeps |
| `Priority`, `Conservation`, `Verdicts`, `TradeLaws` | laws of every run of the reference book |
| `OrderIndex`, `SlotPool`, `Side`, `LevelSearch` | the components of the array-based book, each alone |
| `BookRep`, `SideRep`, `BookOps`, `BookLaws` | the representation invariant as values, and what each group of array writes does to it |
| `Surgery`, `Half`, `Matching`, `Resting`, `Liquidity`, `PreCheck`, `Modifying`, `Adding` | the operations on the arrays |
| `OrderBook`, `Replay` | the book as a class, and whole runs |
| `Ring`, `Mpmc`, `MpmcCalls`, `Spsc`, `SpscCalls` | the queues, and what a call on them comes to |
| `Pipeline`, `EngineRings`, `EngineBooks` | the engine over atomic queues, over its rings, and its array-based books |
| `EngineProgress`, `RingProgress` | that the engine processes what was accepted, and exits when stopped |
| `Histogram`, `HistogramThreads` | the latency histogram, recorded by one thread and by many |

A book's classes carry ghost records of their arrays (`view`, `levels`, `chains`, `queues`). All reasoning about
lists and totals is on those values; the methods only show that array writes do what the value functions say.

An order is admissible unless it comes to rest under an id that another order is resting under at that moment; orders
that fill, expire or are rejected always are. `OrderBooks.OrderBook.AddOrder` itself needs no such condition: result,
reports and queues are the reference's for every order, and the index agrees with the lists afterwards if and only if
the order was admissible. `Replay.ReusedId` shows an input on which the book goes wrong after that: two buys at one price
under one id, where the index leads to the second and the reference would cancel the first.

## Model

| member | source | states |
|---|---|---|
| `Replay.ReplayFromEmpty` | tests/test_conservation.cpp:178-285 | From an empty book, every list of adds, cancels and modifies gives exactly the return values, fills and best quotes of the reference book, for all capacities and all hash functions, up to and including the first order that rests under a resting id |
| `Replay.RunEvents` | tests/test_conservation.cpp:178-285 | The same from any valid book; arrays and lists represent the reference book run over the events, the reports are its reports, and the index agrees with the lists if and only if every order was admissible |
| `Replay.Step` | tests/test_conservation.cpp:200-241 | One event, whatever its id: result, fills and reports are those observed of the reference book, and the book stays valid if and only if the event is admissible |
| `Replay.ReusedId` | src/core/order_book.cpp:127-132 | Two buys at one price under one id: the lists are the reference's, the index leads to the second, and the reference would cancel the first |
| `Replay.ReportsCarryFills` | tests/test_conservation.cpp:164-166 | What the driver keeps of the reports of an order's fills is exactly those fills |
| `OrderBooks.OrderBook.constructor` | src/core/order_book.cpp:160-165 | A new book is valid and represents the empty reference book |
| `OrderBooks.OrderBook.AddOrder` | src/core/order_book.cpp:172-255 | For every order, reused ids included: it returns false if and only if the order is fill-or-kill for more than it can obtain or has a remainder that wants to rest and finds no level or no slot; new queues and emitted reports are the reference's, the index leads to a rested order, and index and lists agree afterwards if and only if no other order rests under its id; a rejected fill-or-kill leaves every array unwritten |
| `OrderBooks.OrderBook.CancelOrder` | src/core/order_book.cpp:257-274 | Succeeds exactly on resting ids; the represented book is the reference's after erasing that order, and nothing is reported |
| `OrderBooks.OrderBook.ModifyOrder` | src/core/order_book.cpp:276-326 | Succeeds exactly on resting ids; requeues, shrinks in place or removes as the reference does |
| `OrderBooks.OrderBook.Quote` | src/core/order_book.cpp:458-466 | Each field: the price of the first level of its side, or the invalid price of an empty side, and the sum of that level's queue modulo 2^32, or 0 |
| `OrderIndexing.OrderIndex.Probe` | src/core/order_book.cpp:120-125 | Terminates on any table with an empty cell, at the key's own cell or the first empty cell behind only other keys |
| `OrderIndexing.OrderIndex.Insert` | src/core/order_book.cpp:127-132 | Binds the id in the represented map, keeping every other binding and every probe chain; never fails |
| `OrderIndexing.OrderIndex.Lookup` | src/core/order_book.cpp:134-140 | Finds an id exactly when the represented map binds it, with its slot and side |
| `OrderIndexing.OrderIndex.Remove` | src/core/order_book.cpp:142-156 | For any hash and layout terminates, removes exactly that key from the represented map and restores the probe-chain invariant |
| `OrderIndexing.OrderIndex.CloseGap` | src/core/order_book.cpp:147-154 | Re-placing the cluster behind a freed cell, across the wrap-around, leaves no probe path interrupted and every binding in place |
| `OrderIndexing.OrderIndex.Reseat` | src/core/order_book.cpp:149-153 | One re-placement shrinks the part of the ring that may hold interrupted paths by one cell |
| `OrderIndexing.LandsNoLater` | src/core/order_book.cpp:149-152 | A lifted entry never lands beyond the cell it was lifted from, in probe order |
| `OrderIndexing.ProbeDecides` | src/core/order_book.cpp:134-140 | Under the probe-chain invariant the probed cell is occupied if and only if the key is bound, and then holds its binding |
| `OrderIndexing.EmptyCell` | include/core/order_book.hpp:95-96 | A table with fewer keys than cells has an empty cell |
| `SlotPools.SlotPool.Init` | src/core/order_book.cpp:92-98 | The free list holds every slot once |
| `SlotPools.SlotPool.Alloc` | src/core/order_book.cpp:100-106 | Fails exactly when all slots are used, else takes a free slot; free and live slots still partition the pool |
| `SlotPools.SlotPool.FreeSlot` | src/core/order_book.cpp:108-112 | Returns a live slot to the free list; the partition and the count of live slots are kept |
| `LevelSearch.ScalarSearch` | src/core/order_book.cpp:19-23 | The first index of the price, or -1 |
| `LevelSearch.VectorSearch` | src/core/order_book.cpp:28-46 | The same first index or -1, through the four-lane chunk loop and the scalar tail, for every array, count and target |
| `LevelSearch.LaneOfMask` | src/core/order_book.cpp:39-41 | Trailing zeros of the 32-bit byte mask, divided by eight, is the first equal lane; a zero mask means none |
| `LevelSearch.MaskFindsFirst` | src/core/order_book.cpp:40-41 | A byte mask is zero exactly when no byte is high; else its trailing zeros count the bytes before the first high one |
| `Sides.Side.InsertLevel` | src/core/order_book.cpp:49-75 | Refuses exactly when full; else opens an empty level where the price order wants it, with all five arrays shifted alike |
| `Sides.Side.RemoveLevel` | src/core/order_book.cpp:77-88 | Closes the gap in all five arrays; every other level is untouched |
| `Sides.Side.FindLevel` | src/core/order_book.cpp:13-24 | A level with that price, or -1 when no level has it |
| `SideRep.OpenClose` | src/core/order_book.cpp:216-222 | Closing a level just opened gives back exactly the old level arrays, lists and queues |
| `SideRep.SideUpdate` | src/core/order_book.cpp:227-251 | Writes confined to one level's list and one slot keep every other level of the side intact |
| `BookRep.AppendLinks` | src/core/order_book.cpp:237-248 | Appending through the tail index extends the doubly-linked list by that slot |
| `BookRep.UnlinkLinks` | src/core/order_book.cpp:443-450 | Unlinking any node, first, last or only one included, leaves the list of the others in order |
| `BookOps.EnlistLevel` | src/core/order_book.cpp:227-251 | After an append the level's list, count and wrapped total are those of the longer queue |
| `BookOps.DelistLevel` | src/core/order_book.cpp:434-452 | After a removal the level's list, count and wrapped total are those of the shorter queue |
| `BookOps.RequeueLevel` | src/core/order_book.cpp:293-314 | Unlinking and re-appending a slot with a larger quantity is moving the order to the back of the queue |
| `BookOps.AgreesIffFresh` | src/core/order_book.cpp:127-132 | After a linked slot's id is written to the index, index and lists agree if and only if that id was not resting |
| `BookLaws.FoundHere` | src/core/order_book.cpp:257-263 | The slot an id is bound to is the only place of that id, and where the reference search finds it |
| `BookLaws.RemoveBook` | src/core/order_book.cpp:434-456 | Removing an order, and its level when exhausted, keeps the whole invariant and is the reference's erasure |
| `BookLaws.PopBook` | src/core/order_book.cpp:413-424 | Dequeuing an exhausted head keeps the whole invariant and is the reference's pop |
| `BookLaws.QtyBook` | src/core/order_book.cpp:315-318 | Changing a slot's quantity and its level's total together keeps the whole invariant |
| `BookLaws.RequeueBook` | src/core/order_book.cpp:288-314 | A quantity increase keeps the whole invariant and moves the order to the back of its queue |
| `BookLaws.EnlistBook` | src/core/order_book.cpp:227-253 | Linking a free slot keeps the lists and appends the order to its level's queue, whatever its id; indexing it keeps the index if and only if the id was fresh |
| `BookLaws.HitBook` | src/core/order_book.cpp:390-395 | Lowering the first quantity of the best level keeps the whole invariant and is the reference's partial hit |
| `BookLaws.RestOpened` | src/core/order_book.cpp:206-212 | Opening a level and enlisting in it is how the reference rests at a new price |
| `Surgery.RemoveOrderFromLevel` | src/core/order_book.cpp:434-456 | The array writes have exactly the effect of the value-level removal |
| `Surgery.Requeue` | src/core/order_book.cpp:288-314 | The array writes have exactly the effect of the value-level requeue |
| `Matching.TryMatch` | src/core/order_book.cpp:359-432 | The loop terminates and performs exactly the reference sweep: same side afterwards, same remainder, same wall, and the reports of exactly its fills |
| `Matching.MatchLevel` | src/core/order_book.cpp:375-425 | One level is swept until it or the aggressor is exhausted or an own order is next; terminates by remaining quantity plus queue length |
| `Matching.ExecuteHead` | src/core/order_book.cpp:376-424 | One execution hits the first order of the best level, reports it, and dequeues it exactly when exhausted |
| `Matching.ReachSweeps` | src/core/order_book.cpp:364-431 | Any run of executions and level removals is a beginning of the reference sweep, and its reports are those of its fills |
| `RestOrders.RestRemainder` | src/core/order_book.cpp:203-255 | Rests as the reference does, or refuses exactly for lack of a level or a slot with the queues unchanged; the lists always agree, the index unless the id was bound |
| `RestOrders.RollBack` | src/core/order_book.cpp:214-225 | After slot exhaustion the level arrays, lists and queues of the side are exactly those before the level was opened |
| `Modifying.CancelOn` | src/core/order_book.cpp:257-274 | The level of a bound order is always found, so the branch for a missing level is dead |
| `Modifying.ModifyResting` | src/core/order_book.cpp:285-326 | Increase, decrease, decrease to zero and no change act as the reference queue does |
| `PreCheck.AvailableLiquidity` | src/core/order_book.cpp:328-357 | The walk, with its early exits and its clamp, answers less than the order exactly when less is obtainable before the limit or an own order |
| `Liquidity.AvailableIsClamped` | tests/test_conservation.cpp:65-76 | The running 32-bit clamp equals the exact obtainable quantity clamped once |
| `Adding.MustKill` | src/core/order_book.cpp:176-182 | The program's pre-check and the reference's decide alike |
| `Adding.AddOn` | src/core/order_book.cpp:172-255 | Pre-check, matching and resting together are the reference's add, and return false exactly for a refused order; a rejected fill-or-kill writes nothing; the index agrees afterwards if and only if the order was admissible |
| `Verdicts.RefusedExactly` | src/core/order_book.cpp:176-225 | An order is refused if and only if it is fill-or-kill for more than is obtainable, or a limit order with an unwalled remainder and no level or slot for it; a remainder rests if and only if it is one of a limit order, unwalled, with a place |
| `Adding.BoundIffResting` | src/core/order_book.cpp:253-259 | An id is bound in the index if and only if one of the sides holds it |
| `RefLaws.SweepKeeps` | tests/test_conservation.cpp:47-64 | A sweep keeps prices sorted, levels non-empty and queues in arrival order, never improves the best price, and stops early only at a refused price or a wall |
| `RefLaws.ApplyKeeps` | tests/test_conservation.cpp:84-142 | Every event keeps the book sorted, without empty levels, with positive quantities in stamp order, and uncrossed |
| `RefLaws.RunKeeps` | tests/test_conservation.cpp:277-279 | So does every run: best bid below best ask whenever both exist |
| `Priority.SweepIsGreedy` | src/core/order_book.cpp:364-431 | Fills hit the ranked offers from the front, each completely before the next, and what is left is the rest of the ranked offers |
| `Priority.PriceTimePriority` | src/core/order_book.cpp:364-425 | In every reachable book, every offer with a better price than a fill's offer, or the same price and an earlier arrival, was executed completely before |
| `TradeLaws.FillLaw` | src/core/order_book.cpp:364-388 | Every fill of every order of every run: within the order's price unless it is a market order, at the price of an order resting on the opposite side, for no more than its quantity, and of another account unless the aggressor has none |
| `TradeLaws.StopLaw` | src/core/order_book.cpp:364-388 | An order stops short only because the opposite side is empty, the best order left there is of its own non-zero account, or it is no market order and the best price left is beyond its own |
| `TradeLaws.ShapeLaw` | tests/test_conservation.cpp:277-279 | In every reachable book bids fall, asks rise, best bid is below best ask, no level is empty and every quantity is positive |
| `TradeLaws.RestLaw` | src/core/order_book.cpp:203-255 | A remainder rests as exactly one new offer, with the order's id, price and account and the quantity its fills left |
| `TradeLaws.EraseLaw` | src/core/order_book.cpp:434-456 | Erasing takes exactly the order found under the id out of the ranked offers; all others keep their order |
| `TradeLaws.CancelLaw` | src/core/order_book.cpp:257-274 | Cancelling removes that one offer from the side that holds the id and leaves the other side, or without such an order the book, as it was |
| `TradeLaws.HoldsLaw` | tests/test_conservation.cpp:107-112 | A side holds an id if and only if one of its queues has an order of that id |
| `Priority.DecreaseKeepsRank` | src/core/order_book.cpp:315-323 | A decrease changes one quantity and no rank |
| `Priority.IncreaseLosesRank` | src/core/order_book.cpp:288-314 | After an increase the order is among the offers with its new quantity, and every other offer of its price outranks it |
| `Priority.WallCutsPrefix` | src/core/order_book.cpp:378-388 | An order with an account gets a prefix of the fills it would get untracked, and without a wall the same result |
| `Priority.WalledNeverRests` | src/core/order_book.cpp:188-201 | A walled order is accepted, its remainder expires and its own side is unchanged |
| `Priority.SweepTakesAvailable` | src/core/order_book.cpp:328-357 | A sweep obtains exactly the obtainable quantity, as far as it is wanted |
| `Priority.FillOrKill` | src/core/order_book.cpp:176-187 | Rejected with no fill and the book untouched exactly when less than the order is obtainable; otherwise filled completely without meeting a wall |
| `Priority.OrderReports` | src/core/order_book.cpp:397-410 | Every report is positive, leaves fall strictly and account for every unit, and only the last report can be a Fill |
| `Conservation.SweepConserves` | tests/test_conservation.cpp:47-64 | What a sweep takes off the side is what it fills |
| `Priority.SweepFills` | tests/test_conservation.cpp:47-64 | Fills and remainder together are the order |
| `Conservation.EventConserves` | tests/test_conservation.cpp:208-268 | Every event keeps submitted = 2 * filled + resting + cancelled + rejected + expired |
| `Conservation.LedgerLaw` | tests/test_conservation.cpp:208-268 | What each event adds to each of the five totals, said of the order and the book before it; no event takes anything off a total |
| `Conservation.RunConserves` | tests/test_conservation.cpp:280-288 | So does every run from any balanced start, with capacity-rejected and walled remainders counted as expired |
| `Conservation.EmptyBalanced` | tests/test_conservation.cpp:170-171 | The driver's empty ledger balances with the empty book |
| `Ring.Apart` | include/core/mpmc_queue.hpp:79-79 | Two positions less than a ring apart have different cells |
| `Ring.MaskIsCell` | include/core/mpmc_queue.hpp:54-59 | For a capacity that is a power of two, the bitwise and of a position with the capacity less one is the position's cell |
| `Ring.CellNext` | include/core/spsc_queue.hpp:47-47 | Advancing a masked position by one is the cell of the next position |
| `MpmcQueue.InitOk` | include/core/mpmc_queue.hpp:61-69 | The constructed queue satisfies the invariant |
| `MpmcQueue.StepOk` | include/core/mpmc_queue.hpp:74-146 | Every atomic access of any thread, spurious failures included, keeps the invariant |
| `MpmcQueue.ExecutionOk` | include/core/mpmc_queue.hpp:61-146 | Every state of every interleaving satisfies the invariant |
| `MpmcQueue.PayloadExclusive` | include/core/mpmc_queue.hpp:104-144 | No two threads ever are at a payload access, or between it and the store that ends it, on one cell |
| `MpmcQueue.FifoByTicket` | include/core/mpmc_queue.hpp:74-146 | The claimed and unconsumed tickets never exceed the capacity; a value popped under a ticket is the item pushed under it; every claimed ticket is accounted for |
| `MpmcQueue.QuiescentExact` | include/core/mpmc_queue.hpp:74-146 | With all threads between calls, exactly the tickets before the head are popped and exactly those before the tail are published: nothing is lost |
| `MpmcQueue.HistoryGrows` | include/core/mpmc_queue.hpp:74-146 | Along a run a claimed ticket keeps its item, a published one stays published and a popped value stays popped |
| `MpmcQueue.StepExtends` | include/core/mpmc_queue.hpp:141-145 | A pop that completes returns a ticket that was never returned before |
| `MpmcQueue.ClaimedOnce` | include/core/mpmc_queue.hpp:84-93 | Two claims of one ticket in a run, of producers or of consumers, are the same step of the same thread |
| `MpmcQueue.ClaimsInOrder` | include/core/mpmc_queue.hpp:84-132 | Tickets are claimed in increasing order along a run, by producers and by consumers |
| `MpmcQueue.PublishedBeforeClaim` | include/core/mpmc_queue.hpp:118-132 | A consumer claims a ticket only once it is published, and before it was ever popped |
| `MpmcQueue.PushVerdict` | include/core/mpmc_queue.hpp:78-102 | A push gives up if and only if at its sequence load the tail was its position and the ticket one round back unreleased; it reloads only when overtaken |
| `MpmcQueue.PopVerdict` | include/core/mpmc_queue.hpp:118-139 | A pop gives up if and only if at its sequence load the head was its position and the ticket there unpublished; it reloads only when overtaken |
| `MpmcCalls.PushGoesOn` | include/core/mpmc_queue.hpp:74-109 | A push ends if and only if it publishes, or at its sequence load stands at the tail of a full queue; until then it keeps its item, and a failed compare-and-swap only moves its position to the tail |
| `MpmcCalls.PopGoesOn` | include/core/mpmc_queue.hpp:114-146 | A pop ends if and only if it releases, returning the item pushed under its ticket, or at its sequence load stands at a head that is not published; a failed compare-and-swap only moves its position to the head |
| `MpmcCalls.CanGo` | include/core/mpmc_queue.hpp:74-146 | A thread inside a call can always perform its next access |
| `MpmcCalls.EndsAlone` | include/core/mpmc_queue.hpp:74-146 | Left alone and without spurious failures, a call ends within six accesses, wherever it was and whatever the others had done |
| `MpmcCalls.PushAlone` | include/core/mpmc_queue.hpp:74-109 | Left alone from its start, a push to a queue that is not full claims the next ticket and publishes its item |
| `MpmcCalls.PushAloneFull` | include/core/mpmc_queue.hpp:95-97 | Left alone from its start, a push to a full queue is refused and changes nothing |
| `MpmcCalls.PopAlone` | include/core/mpmc_queue.hpp:114-146 | Left alone from its start, a pop with the head published returns the item pushed under the head |
| `MpmcCalls.PopAloneEmpty` | include/core/mpmc_queue.hpp:133-135 | Left alone from its start, a pop with nothing published at the head is refused and changes nothing |
| `MpmcCalls.PushCall` | include/core/mpmc_queue.hpp:74-109 | An idle thread that calls push and is left alone gets its item claimed and published, or the queue was full and nothing changed |
| `MpmcCalls.PopCall` | include/core/mpmc_queue.hpp:114-146 | An idle thread that calls pop and is left alone returns the item at the head, or none was published there and nothing changed |
| `MpmcQueue.RetryMeansProgress` | include/core/mpmc_queue.hpp:87-100 | A thread whose position is no longer the counter was overtaken: since it read the counter, another thread claimed that very ticket |
| `SpscQueue.StepOk` | include/core/spsc_queue.hpp:45-74 | Every load, payload access and store keeps the invariant, however stale the peer position it sees |
| `SpscQueue.Safety` | include/core/spsc_queue.hpp:45-74 | In every run the popped items are a prefix of the pushed ones, at most capacity less one are inside, and payload read and write never meet in a cell |
| `SpscQueue.StepIsAtomic` | include/core/spsc_queue.hpp:45-74 | A push takes effect atomically at its store of the write position and a pop at its store of the read position; a refusal changes nothing, and after a fresh load is that of an atomic bounded queue |
| `SpscCalls.PushGoesOn` | include/core/spsc_queue.hpp:45-59 | A push ends if and only if its full test refuses it or it stores the write position, and then its item is accepted; until then it keeps its item and is one access nearer to its end |
| `SpscCalls.PopGoesOn` | include/core/spsc_queue.hpp:62-74 | A pop ends if and only if its empty test refuses it or it stores the read position, and then it returns the oldest item |
| `SpscCalls.AcceptsItsItem` | include/core/spsc_queue.hpp:45-59 | In every run, an accepted item is the one with which that very call began |
| `SpscCalls.PushAlone` | include/core/spsc_queue.hpp:45-59 | With room and fresh loads, a push is accepted after its four accesses and has stored the next write position |
| `SpscCalls.PushAloneFull` | include/core/spsc_queue.hpp:49-52 | Without room and with fresh loads, a push is refused after two accesses, with buffer and write position as they were |
| `SpscCalls.PopAlone` | include/core/spsc_queue.hpp:62-74 | With an item inside and fresh loads, a pop returns the oldest item after its four accesses and has stored the next read position |
| `SpscCalls.PopAloneEmpty` | include/core/spsc_queue.hpp:65-67 | With nothing inside and fresh loads, a pop is refused after two accesses |
| `SpscCalls.PushCall` | include/core/spsc_queue.hpp:45-59 | A resting producer can push alone, and with room its item is accepted |
| `SpscCalls.PopCall` | include/core/spsc_queue.hpp:62-74 | A waiting consumer can pop alone, and gets the oldest item when there is one |
| `SpscQueue.RefusalExact` | include/core/spsc_queue.hpp:49-67 | A push is refused if and only if the ring's items, with those taken since the position it saw, fill the ring; a pop if and only if all items came in since the position it saw; passing either test is never wrong |
| `SpscQueue.RefusedWithRoom` | include/core/spsc_queue.hpp:49-52 | A state in which a push that sees a read position one behind is refused although there is room |
| `EngineRings.StepRefines` | include/core/matching_engine.hpp:52-59 | Every load, payload access and store of the submitting, engine and polling threads on the two rings is one action of the pipeline, or none; it refuses without need only after a stale load |
| `EngineRings.RunIsPipelineRun` | src/core/matching_engine.cpp:55-115 | Every run over the rings is a run of the pipeline, without needless refusals when no load was stale |
| `EngineRings.RingsKeepOrder` | src/core/matching_engine.cpp:55-115 | Over the rings, however stale the loads: processed is a prefix of accepted, and polled an in-order subsequence of generated |
| `EngineRings.ExitExact` | src/core/matching_engine.cpp:72-74 | An engine that exits has processed every accepted message if and only if its last load was of the current write position |
| `EngineRings.RingsDrain` | src/core/matching_engine.cpp:72-74 | With no message accepted after some moment and no stale load, an engine alive then and exited later has processed everything |
| `EngineRings.DropExact` | src/core/matching_engine.cpp:110-115 | A report is dropped if and only if the ring's items, with those polled since the position seen, fill the ring; after a fresh load, if and only if it is full |
| `EnginePipeline.ProcessedIsPrefix` | src/core/matching_engine.cpp:55-75 | Under every interleaving, needless refusals included, the processed messages are a prefix of the accepted ones, short by at most the queue's room |
| `EngineProgress.TakesNext` | src/core/matching_engine.cpp:58-63 | A running engine with a message queued takes the oldest one, and it alone, in finitely many turns |
| `EngineProgress.CatchesUp` | src/core/matching_engine.cpp:58-70 | After any interleaving, an engine that was not stopped and is left to itself processes every accepted message and generates every report of them |
| `EngineProgress.StopEnds` | src/core/matching_engine.cpp:47-75 | Stopping an engine that is alive makes it exit, with everything accepted processed |
| `RingProgress.NextAccess` | src/core/matching_engine.cpp:55-115 | Over the rings the engine thread can always go on, and every access is a turn of the pipeline or brings the next one nearer |
| `RingProgress.RingsCatchUp` | src/core/matching_engine.cpp:58-70 | At any moment of any run over the rings, the engine thread's own accesses with fresh loads lead to everything accepted processed and every report generated |
| `RingProgress.RingsStopEnds` | src/core/matching_engine.cpp:47-75 | Over the rings, stopping an engine that is alive leads to its exit with everything accepted processed |
| `EnginePipeline.ShutdownExact` | src/core/matching_engine.cpp:72-74 | Once submissions stopped while the engine was alive, it exits by one poll, and every accepted message was processed if and only if the queue was empty at that poll, as it is unless the poll was stale |
| `EnginePipeline.DrainEnds` | src/core/matching_engine.cpp:47-75 | A stopped engine left alone reaches its exit, from any state and whichever of its queue operations refuse without need |
| `EnginePipeline.PolledInOrder` | include/core/matching_engine.hpp:57-59 | Polled reports are an in-order subsequence of the generated ones, which are those of the model's reference books for the processed messages; only dropped and still queued reports are missing |
| `EnginePipeline.DropsOnlyWhenFull` | src/core/matching_engine.cpp:110-115 | Every lost report was met by a full outbound queue at the moment it was pushed, or refused after a stale load |
| `EngineBooks.EngineBook` | src/core/matching_engine.cpp:77-115 | After any interleaving, the array-based book fed a symbol's processed messages is described by the model's reference book of that symbol, and its reports are that symbol's part of the generated ones, provided every order before the last is admissible, client and synthetic ids alike; it is valid if and only if the last one is too |
| `EngineBooks.SymbolReports` | src/core/matching_engine.cpp:77-115 | A symbol's part of all reports is what its reference book reports on its own events |
| `EnginePipeline.BookIsFold` | src/core/matching_engine.cpp:77-108 | The model's reference book of a symbol is the run over that symbol's messages with ids filled in; messages for other, unknown and out-of-range symbols do not touch it |
| `EnginePipeline.BooksFollowMessages` | src/core/matching_engine.cpp:77-108 | The same under every interleaving; with non-zero order ids the messages count exactly as they came. That the program's book is this one is `EngineBooks.EngineBook`, under its condition |
| `EnginePipeline.MessageLaw` | src/core/matching_engine.cpp:77-108 | Field by field, which order, cancel or modify each kind of message gives its own book, the synthetic id it gets, and that heartbeats and messages for symbols from 256 on or without a book do nothing |
| `EnginePipeline.ReportLaw` | src/core/matching_engine.cpp:110-115 | Every report of a message carries its symbol and order id, and contra id, price and quantity of its fill |
| `Histogram.BucketHolds` | include/util/histogram.hpp:164-192 | A bucket holds exactly the values from its lower edge up to the next bucket's, the last one without end |
| `Histogram.BucketEdge` | include/util/histogram.hpp:164-192 | The edge that stands for a value is the value itself below 1000 ns, then the value cut to 100, 1000 and 10000 ns on the three decades, and 1 ms from there on |
| `Histogram.LowerApproximates` | include/util/histogram.hpp:164-192 | A lower edge equals its samples below 1000 ns, is less than a tenth of itself short of them up to 1 ms, and is 1 ms beyond |
| `Histogram.CrossingBucket` | include/util/histogram.hpp:88-93 | The running count passes rank t in bucket i if and only if the t-th smallest sample is in bucket i |
| `Histogram.OrderedAscends` | include/util/histogram.hpp:83-87 | The reference order of the samples is ascending |
| `Histogram.Percentile` | include/util/histogram.hpp:85-95 | Rank t below the count gives the lower edge of the bucket of the t-th smallest sample, with the error bound; from the count on the largest sample; 0 of no samples |
| `Histogram.LatencyHistogram.Record` | include/util/histogram.hpp:61-73 | Called by one thread: counters, total, sum and maximum are those of the samples with the new one |
| `HistogramThreads.QuiescentSummary` | include/util/histogram.hpp:61-73 | Called by any number of threads, under every interleaving of the atomic accesses: whenever no call is under way, the counters summarize all samples recorded |
| `HistogramThreads.LaggingSummary` | include/util/histogram.hpp:61-73 | While calls are under way every bucket counter is exact, and total, sum and maximum only lag behind |
| `HistogramThreads.MaximumKept` | include/util/histogram.hpp:68-72 | Every access keeps each sample covered by the maximum or by a thread still raising it |
| `HistogramThreads.CallGoesOn` | include/util/histogram.hpp:61-73 | A call ends only when the maximum it read is no less than its sample or it has raised the maximum to its sample; it can always go on, and without spurious failures ends within five accesses |
| `HistogramThreads.RecordCall` | include/util/histogram.hpp:61-73 | An idle thread that records and is left alone counts its sample once in its bucket, total and sum, and raises the maximum to it if it is larger |
| `Histogram.LatencyHistogram.RaiseMax` | include/util/histogram.hpp:68-72 | In one thread, the compare-and-swap loop ends with the larger of the two values, whatever number of spurious failures |
| `Histogram.LatencyHistogram.TakeSnapshot` | include/util/histogram.hpp:141-149 | The snapshot summarizes exactly the recorded samples |
| `Histogram.LatencyHistogram.Reset` | include/util/histogram.hpp:151-156 | Afterwards the histogram has recorded nothing |
| `Histogram.PercentileOfRun` | include/util/histogram.hpp:61-95 | For any samples recorded one after the other, every rank reads as the sorted samples say, to the bucket's width |

## Left out

- What the program does after an order came to rest under a resting id: `OrderBooks.OrderBook.AddOrder` says exactly when that happens and `Replay.ReusedId` shows that cancelling then goes wrong; later events on such a book are not modelled.
- The driver's own id bookkeeping and random event generation: event lists are arbitrary.
- Order ids, accounts and prices are unbounded; quantities and level totals have their 32-bit width, and totals wrap.
- `OrderIndexing.Home`: the hash is an arbitrary function, read as cell 0 where it leaves the table; the program's multiplicative hash is one instance.
- Capacities are parameters with the table twice the slots, not 4096 levels and 65536 orders.
- The match callback is an append to a list of reports that does not re-enter the book. Reports carry no symbol inside the book; the engine adds it.
- An order's original quantity, symbol and status are not kept apart from the remaining quantity: no decision reads them.
- Statistics counters, `bid_depth`, `ask_depth`, `empty` and `size_approx`: they would only add easy members.
- The two branches for a level that is gone when an indexed order is cancelled or modified: proved unreachable, so their clean-up is not modelled.
- Order of independent writes: a few neighbouring array writes are grouped in one setter, and an exhausted order is freed just before instead of just after its index entry is removed.
- Padding, prefetching and the choice between vector and scalar search at compile time: both searches are modelled and proved to return the first index.
- Fairness: progress is stated of a thread left alone, with fresh loads and without spurious failures, from every reachable state; that the scheduler lets it run is not modelled.
- Weak memory: threads interleave atomic accesses. Only loads of a peer's position in the single-producer ring may be stale, and never go back behind one seen before. Positions and sequence numbers do not wrap at 64 bits.
- `SpscQueue.StepIsAtomic`: that a refusal is one of an atomic queue holds after a fresh load only; `SpscQueue.RefusalExact` says what a stale one means.
- `EnginePipeline.ShutdownExact`: a drain poll on a stale write position can end the engine with messages queued, as the statement says; nothing in the program rules such a load out.
- `EnginePipeline.DropsOnlyWhenFull`: a push on a stale read position can drop a report with room left, as the statement says.
- `EnginePipeline.BookIsFold`: speaks of the model's reference books; `EngineBooks.EngineBook` carries it over to array-based books under its condition on ids.
- `EnginePipeline.BooksFollowMessages`: likewise; synthetic ids share one counter across symbols and are not kept apart from client ids, so that they too can violate that condition.
- A message's effect on its book is one step of the engine, since no other thread sees the book.
- Registration of symbols after the start, thread pinning, scheduling and the statistics of the engine.
- `Histogram.LatencyHistogram.Record`: is the sequential form; `HistogramThreads` covers concurrent calls. A snapshot taken while calls are under way is not modelled beyond `HistogramThreads.LaggingSummary`, and counters do not wrap at 64 bits.
- `Histogram.LatencyHistogram.RaiseMax`: is the sequential form; concurrent raisers are covered by `HistogramThreads.MaximumKept`.
- `Histogram.Percentile`: takes the integer rank; the floating-point product of fraction and total, the mean and the printing are left out.
- The comment that a push or pop does one compare-and-swap on a per-slot atomic (include/core/mpmc_queue.hpp:35-36) is not what the code does: it is on the shared position counter, and the model follows the code.
- The multi-symbol engine, market data parsing and replay files, the execution layer, the allocator, the logger and the benchmarks are not part of this model.
