# VeloxMatch: a verified model

VeloxMatch is a price-time matching engine on index-linked slots, with a write-ahead log that
rebuilds the book, market-data workers that mirror it record by record, and lock-free rings and a TCP
stream that carry the records. The project models these parts in Dafny and proves what they promise
over every input, run and interleaving. `dafny verify dfyconfig.toml` verifies all of it.

How it is laid out:

- **Abstract book** — `Book`, `Queues`, `Matching`, `Replay`, `AnyLog`: the book as price levels of
  FIFO queues, the engine's operations on it, the log they write and its replay.
- **What matching does** — `Answers`, `Submissions`, `Priority`, `Visits`, `Allocation`: what each
  answer of the callback does, order, completeness, conservation and exact shares.
- **The book in memory** — `Links`, `Ladders`, `PriceTree`, `Slab`, `BookState`, `OrgQueue`,
  `OrderBook`, `Visiting`, `Engine`, `BulkCancel`, `OrgCancel`, `Recovery`: four linked lists, a search
  tree, a cache and a map on one array of slots, changed in place by methods that are proved to refine
  the abstract operations. `Failures` and `OrgFailures` hold runs and reachable books on which an
  operation breaks something.
- **Rings** — `MpRing`, `RingSafety`, `RingLiveness`, `RingAnswers`, `RingFailures` (many producers,
  one consumer); `Laps`, `Stream`, `Broadcast`, `BroadcastPolls`, `Backpressure`, `BackpressurePolls`
  (shared memory): one action per atomic operation, sequentially consistent, interleaved arbitrarily.
- **Market data** — `LevelList`, `LevelBook`, `Market`, `PublicMarket`, `BookFeed`, `Deltas`,
  `PrivateMarket`, `PrivateWorker`, `PrivateFeed`, `Snapshot`; `MarketFailures` and `PrivateFailures`
  hold runs that break what the workers keep.
- **Log on disk** — `WalFormat`, `WalParse`, `WalSound`, `WalReader`, `WalWriter`, `WalCodec`,
  `ShortGap`, and `Durable`, which goes from a run of the engine to the book recovered from its files.
- **Wire and checksums** — `TcpFraming`, `TcpBuffers`, `Crc`.

Conventions: a slot index of 0xFFFFFFFF is NULL; side `k` of a book is 2p for the bids of product p and
2p + 1 for its asks; the callbacks that decide about a match are arbitrary functions of the call
number, the maker and the taker; the pre-booking answer, read sizes, socket results and the
consumer's patience are inputs.

## Findings

Properties one would expect that do not hold. Each is proved to fail at a reachable state and, next to
it, exactly when it does hold; the missing product check is a precondition instead.

- **Cancelling a deactivated order can break other orders' queue** (`src/orderbook.c:581-589`). It
  does if and only if two or more orders rest at its price: `OrderBooks.OrderBook.RemoveSlot`,
  `OrderBooks.OrderBook.Cancel` and `Engine.CancelOrder` with the condition `Harmless`; reached in
  `Failures.BrokenQueue`.
- **Removal leaves the organisation queue's head behind** (`src/orderbook.c:592`). The queues stay
  exact if and only if the removed order was not at the head of its own: `OrgQueue.StaleHead`. After
  that `om_orderbook_cancel_org_product` cancels none of the organisation's orders while the slot is
  free (`OrgFailures.RemoveThenCancel`, reached in `OrgFailures.MissedOrder`). Once the slot has been
  used again it cancels *another organisation's* orders, or only the newest of its own
  (`OrgFailures.ReuseThenCancel`, reached in `OrgFailures.StolenOrder` and `OrgFailures.OnlyNewest`).
  `OrgCancel.CancelOrgProduct` says for each case exactly which orders go.
- **Matching does not check the product** (`src/orderbook.c:503-508`, called at
  `src/om_engine.c:159`): the best head is read from an array indexed by an unchecked number, so
  `Engine.Match` requires a product of the book; insertion (`src/orderbook.c:276-326`) does check it.
- **Activation can lose a slot** (`src/om_engine.c:427-429`). The order has left the map; if something
  of it is left that is not booked, its slot is neither freed nor in the map: `Engine.ActivateOrder`.
- **A ring of one slot loses records** though its configuration is accepted
  (`src/om_bus_mp.c:83-85`): `RingFailures.OneSlotFails`; every ring theorem holds from two slots on.
- **A late write spoils a record** (`src/om_bus_mp.c:304-306`): in a ring of any size one write by a
  producer whose ticket was skipped suffices (`RingFailures.OneLateWrite`); without one every record
  that is copied out arrives as sent (`RingLiveness.DeliveredAsSent`). Order, finality and bounds need
  no such condition.
- **A record that is not copied changes under its reader** (`src/om_bus_mp.c:372-383`, `499-505`). The
  plain poll and the batch hand out a pointer into the slot and release the slot in the same call, so a
  producer of the next lap can overwrite it: `RingFailures.BorrowedChanges`. It shows what was sent for
  as long as the next lap's ticket has not been claimed: `RingLiveness.BorrowedAsSent`.
- **A short gap makes a log unreadable** (`src/om_wal.c:701-716`). A flush pads to the block size, and
  at a gap of one to seven bytes before another block the reader looks at eight bytes as a header. The
  log is read back if and only if every gap is fine (`WalParse.DiskParses`, `WalWriter.Writer.Reopen`,
  `WalCodec.WriteAndRead`); `ShortGap.Unreadable` is a log that cannot be reopened. Without checksums
  and with payloads in whole words all gaps are fine (`WalWriter.AlignedDisk`).
- **A price on both sides breaks a market ladder** (`src/om_market.c:490-494`). Both sides of a product
  share one price map; the quantities stay right, and the ladders stay sound if and only if no level is
  used up under the other side's flag: `LevelBooks.LevelBook.SubQty`,
  `PublicMarket.PublicWorker.Process`. An engine run with same-organisation exclusion gets there:
  `MarketFailures.RunIs` and `MarketFailures.HearsRun`. Uncrossed books, which runs without a callback
  keep (`BookFeed.RunQuiet`), never do.
- **Private quantities drift** (`src/om_market.c:1324` against `1238-1246` and `1455-1463`). At an
  insertion the callback is shown the logged record; afterwards a rebuilt one whose `volume` is the
  remaining volume. The running quantity is its recomputation plus the drift this causes
  (`PrivateWorkers.PrivateWorker.Process`), which is zero if the callback has answered alike for every
  insertion and not zero at the first for which it has not (`PrivateMarket.NoDrift`,
  `PrivateMarket.FirstDrift`, `PrivateWorkers.PrivateWorker.DriftShows`). With half of the volume as
  the answer, quantity stays on show without an order (`PrivateFailures.LeftOver`); another callback
  makes a cancel fail (`PrivateFailures.Stuck`).
- **A taker with id 0 makes the log unrecoverable** (`src/orderbook.c:935-938`). A run's log is
  recovered if and only if every trade in it has a taker with an id: `Replay.RecoveryTheorem`,
  `Recovery.Restart`; `Failures.NamelessTaker` is a run for which it fails. Ids come from a counter
  that answers 0 once it is exhausted (`Slab.DualSlab.NextOrderId`).

Where comments and code disagree the model follows the code: the insertion record's header is 56 bytes
(`include/openmatch/om_wal.h:35-60`), not the 64 its comment gives.

## Model

| member | source | states |
|---|---|---|
| `Slab.DualSlab.Alloc` | src/om_slab.c:124-177 | The fixed and the aux free list are always the same sequence, so a slot comes back exactly when one is free, cleared and in no queue; the branch for lists that disagree is unreachable. |
| `Slab.DualSlab.Free` | src/om_slab.c:179-197 | A freed slot becomes the head of both lists, which stay the same sequence, and is left unlinked in every queue. |
| `Slab.DualSlab.NextOrderId` | src/om_slab.c:200-203 | Ids go up by one; at 0xFFFFFFFF the counter sticks at 0 and never starts again. |
| `Links.ChainLinkAfter` | include/openmatch/om_slab.h:217-231 | Linking behind a member inserts exactly there in the list the links spell out, and writes nothing outside the list and the new slot. |
| `Links.ChainUnlink` | include/openmatch/om_slab.h:251-276 | Unlinking a member deletes exactly it from the list, clears its links and writes nothing outside the list. |
| `Links.FifoPushes` | src/orderbook.c:238-253 | Appending through the tail kept in the head's `prev` puts the order last in the FIFO and keeps the tail right. |
| `Links.FifoDrops` | src/orderbook.c:580-590 | Taking a non-head out of a FIFO and repairing the tail in the head deletes exactly that order. |
| `Links.FifoPromotes` | src/orderbook.c:539-551 | Head promotion makes the second order head of the remaining FIFO, with the tail moved over to it. |
| `PriceTree.Erase` | src/orderbook.c:33-36 | Erasing a price from a search tree removes exactly that price and keeps it a search tree. |
| `Book.InsertWf` | src/orderbook.c:276-326 | On the abstract book: insertion keeps it well formed (sides price-sorted, levels FIFO, exactly the active orders resting), and the orders resting afterwards are those before and the new one, and no other. |
| `Book.RemoveWf` | src/orderbook.c:515-597 | On the abstract book: removal and deactivation keep it well formed, and the orders resting afterwards are exactly those before except the one. |
| `Queues.InsertQueues` | src/orderbook.c:238-253 | For every side and price of the book: an inserted order goes to the end of the queue at its own price, and no other queue changes. |
| `Queues.RemoveQueues` | src/orderbook.c:515-686 | For every side and price: an order that is removed or deactivated leaves its queue and everybody else keeps their place. |
| `Queues.TradeQueues` | src/om_engine.c:283-312 | A trade that leaves the maker with volume moves nobody in any queue. |
| `BookState.DescentEnds` | src/orderbook.c:190-202 | When the tree descent runs out without a hit, the bounds it carries are the heads of the two levels next to the price. |
| `BookState.DescentFound` | src/orderbook.c:190-202 | A price hit by the descent is that of the level at the sorted position. |
| `BookState.OpenOk` | src/orderbook.c:210-233 | Opening a level behind the head the descent gives keeps ladder, FIFO, tree, organisation cache and map sound and refines insertion into the abstract side. |
| `BookState.AppendOk` | src/orderbook.c:238-253 | Appending to a level keeps them sound, the cache being cleared when the organisations differ, and refines appending to the abstract FIFO. |
| `BookState.DetachLastOk` | src/orderbook.c:258-274 | Removing the only order of a level takes the level out of ladder and tree and keeps everything else sound. |
| `BookState.DetachHeadOk` | src/orderbook.c:534-579 | Head promotion: the second order takes over ladder place, tree node, cache entry and tail, and the state is sound with the head gone from the abstract level. |
| `BookState.DetachInnerOk` | src/orderbook.c:580-590 | Removing an order behind the head changes only its queue. |
| `OrderBooks.OrderBook.constructor` | src/orderbook.c:63-133 | A new book is sound, its organisation queues exact, and it represents the empty book with every slot free. |
| `OrderBooks.OrderBook.FindLevel` | src/orderbook.c:164-204 | Best level first, then tree descent: returns the head of the level at the price if there is one, otherwise the head of the next better level, or NULL at the front. |
| `OrderBooks.OrderBook.Insert` | src/orderbook.c:276-326 | Succeeds exactly for a known product and organisation and a new non-zero id; the memory stays sound and represents the abstract insertion; the record is logged; the organisation queues stay exact. |
| `OrderBooks.OrderBook.Detach` | src/orderbook.c:515-590 | Takes an order off its level. For a resting order the abstract side loses exactly that id. For a deactivated one: nothing happens with fewer than two orders at its price, and with two or more a foreign queue is severed. |
| `OrderBooks.OrderBook.RemoveSlot` | src/orderbook.c:515-597 | Removes and frees a slot: the abstract cancellation when it is harmless, a severed queue otherwise; the organisation queues stay exact if and only if the order was not at the head of its queue. |
| `OrderBooks.OrderBook.UnlinkSlot` | src/orderbook.c:599-686 | Takes an order off its level and out of its organisation queue, whose head moves along; the map is untouched. |
| `OrderBooks.OrderBook.Cancel` | src/orderbook.c:328-445 | Unknown id: nothing changes. Otherwise logged, off the level, out of the organisation queue, out of the map and back to the slab; the book is the abstract cancellation and sound exactly when `Harmless`, and organisation queues stay exact. |
| `OrderBooks.OrderBook.Park` | src/om_engine.c:392-400 | Deactivation keeps the order in the map, marks it, and takes it off the book and out of its organisation queue. |
| `OrderBooks.OrderBook.FirstOtherOrg` | src/orderbook.c:44-61 | With or without a cached organisation, the result is the first order of the level that is not of the given organisation; what it learns keeps the cache sound. |
| `OrderBooks.Relearn` | src/orderbook.c:52-60 | The cache may be set once the whole queue has been seen to be of one organisation. |
| `OrderBooks.OrderBook.VolumeAt` | src/orderbook.c:469-490 | The sum of the remaining volumes at a price, modulo 2^64. |
| `OrgQueue.PushOk` | src/orderbook.c:311-322 | Inserting at the front of the organisation queue keeps every queue exactly the active orders of its product and organisation. |
| `OrgQueue.DropOk` | src/orderbook.c:428-440 | Leaving the queue with the head moved along keeps every queue exact. |
| `OrgQueue.StaleHead` | src/orderbook.c:592-594 | Leaving it without moving the head keeps the queues exact unless the order was the head, and then no assignment of orders to queues fits the memory. |
| `OrderBooks.SeveredNotOk` | src/orderbook.c:580-590 | Links severed beside a deactivated order are those of no sound book at all. |
| `Visits.WalkSide` | src/om_engine.c:162-313 | Walking level after level and queue after queue is one walk over the single price-then-time queue: same entries, queue, remaining volume, callback calls and log. |
| `Visits.SideVisits` | src/om_engine.c:162-313 | For any callback answers: the visits run through the crossing makers in price-then-time order, each visited until it is skipped, gone or the taker has enough; volumes, log and what is left follow from the visits; a taker left wanting has nobody crossing ahead. What each answer does is `Answers.SideFollows`. |
| `Answers.SideFollows` | src/om_engine.c:162-313 | From the callback's answers alone: matching a side is a chain of stages from the whole side to one where matching is over. CANCEL_MAKER logs the maker's cancel and leaves the taker its volume; CANCEL_BOTH does so, leaves the taker 0 and is last; 0 passes the maker over; DECREMENT_CANCEL trades the smaller volume; any other answer trades the least of it and both volumes, at the maker's price, the maker going if it has no more. |
| `Visits.LeftWasSkipped` | src/om_engine.c:162-313 | A crossing maker still resting beside an unsatisfied taker was skipped by an explicit decision about the very order, volume included, that still rests. |
| `Visits.PlainSkipsNobody` | src/om_engine.c:339-342 | Without callback and exclusion no visit skips. |
| `Visits.ExcludeSkipsOwn` | src/om_engine.c:182-196 | With exclusion and any callback, stateful ones included: own makers are skipped without a call and every other maker is decided on as without exclusion, at the number of calls made for those before it; without a callback exactly the own makers are skipped. |
| `Priority.SideInOrder` | src/om_engine.c:162-313 | The makers named in the log appear in price-then-time order of the side. |
| `Priority.SideConserves` | src/om_engine.c:206-313 | Each maker's remaining volume drops by exactly what the log trades with it, the taker's by the sum of the logged volumes, up to what cancel decisions drop. |
| `Priority.SidePrices` | src/om_engine.c:206-300 | Every trade on a side is logged at the resting maker's own price, which the taker's limit accepts, for a positive volume, and names the taker and the product. |
| `Allocation.LevelExact` | src/om_engine.c:186-305 | Without callbacks one level is allocated by queue position alone: a maker with `ahead` queued before it trades min(its volume, what the taker wants beyond `ahead`). |
| `Allocation.LevelSuffix` | src/om_engine.c:186-305 | Without callbacks the makers a level loses are a prefix of its queue: what stays is the rest in order, and nothing stays beside a taker that wants more. |
| `Allocation.SideExact` | src/om_engine.c:162-313 | The same over all crossing levels in price-time order: shares and what remains of the taker are given in closed form. |
| `Allocation.PlainExhausts` | src/om_engine.c:162-313 | A taker that still wants volume leaves no maker its limit accepts. |
| `Allocation.ExcludeSide` | src/om_engine.c:182-196 | Same-organisation exclusion gives the same trades, log and book as a callback that answers 0 for the taker's own makers, for every callback whose answers do not depend on how often it was called. |
| `Engine.VisitMaker` | src/om_engine.c:186-312 | One turn of the inner loop on the real memory is one step of the abstract level walk, for each of the decisions. |
| `Engine.WorkLevel` | src/om_engine.c:186-312 | The inner loop refines the abstract walk of one level; it ends because makers left and taker volume go down lexicographically. |
| `Engine.WorkSide` | src/om_engine.c:162-319 | The outer loop refines the abstract walk of a whole side. |
| `Engine.Match` | src/om_engine.c:122-337 | Matching and resting the remainder on the real memory is the abstract submission: book, volumes and log, with the memory sound afterwards. What is left of the taker is in the map if it was booked; otherwise it is in the caller's slot only, which is neither free nor in the map. |
| `Engine.CancelOrder` | src/om_engine.c:349-370 | Exact: succeeds if and only if the order is known and active or has orders resting at its price; if harmless, memory and log are those of the abstract cancellation; if not, the links left behind are those of no sound book. |
| `Engine.DeactivateOrder` | src/om_engine.c:372-402 | Succeeds exactly for active orders; the book is the abstract deactivation, logged, with exact organisation queues. |
| `Engine.ActivateOrder` | src/om_engine.c:404-431 | A deactivated order is resubmitted as a taker; book and log are those of the abstract activation. A fully traded order's slot is freed, a booked one rests, and in every other case the slot is lost: neither free nor in the map. |
| `Submissions.SubmitMeans` | src/om_engine.c:122-337 | For every submission: the other side is worked through as the answers say, what is left is logged and put at the end of the queue at its price if it is to be booked, and no other queue of the book changes. |
| `Submissions.DeactivateMeans` | src/om_engine.c:372-402 | Deactivation sets the status, logs, takes the order out of its queue and moves nobody else. |
| `Submissions.ActivateMeans` | src/om_engine.c:404-431 | Activation of an order that crosses nobody books it again as new, with its volume, at the end of its queue. |
| `Submissions.CancelMeans` | src/om_engine.c:349-370 | By what rests at its price, a cancelled order leaves book and queue (active), stays (deactivated, nobody there), leaves the map only (one order there) or severs the queue (two or more). |
| `BulkCancel.CancelSide` | src/orderbook.c:727-761 | Cancels every order of a side in price-time order while walking the links it is destroying; counts them; the rest of the book is untouched and the log holds one record for each. |
| `BulkCancel.SideIsMany` | src/om_engine.c:449-494 | Cancelling a side is cancelling its orders one by one. |
| `OrgCancel.CancelOrgProduct` | src/orderbook.c:688-711 | Exactly which orders it cancels, one by one and counted: from an exact queue the organisation's active orders of the product; from a head left behind, none while the slot is free, another queue from the slot on once another queue's order is in it, and that one order once it is of the same queue. |
| `OrgFailures.RemoveThenCancel` | src/orderbook.c:592-596 | In every book: once the order at the head of its organisation's queue has been removed, the bulk cancel of that organisation cancels nothing while the slot stays free. |
| `OrgFailures.ReuseThenCancel` | src/orderbook.c:688-711 | In every book: once the next order has been booked in the freed slot, that bulk cancel cancels this order and all of its queue if it is of another queue, and only this order if it is of the same one. |
| `OrgFailures.StolenOrder` | src/orderbook.c:688-711 | A reachable book on which one organisation's bulk cancel cancels another organisation's order. |
| `OrgFailures.OnlyNewest` | src/orderbook.c:688-711 | A reachable book on which the bulk cancel takes the newest order and leaves an older one of the same organisation resting. |
| `OrgFailures.MissedOrder` | src/orderbook.c:688-711 | A reachable book where the bulk cancel reports 0 and an active order of the organisation stays. |
| `Failures.BrokenQueue` | src/om_engine.c:349-370 | A reachable book (three bids at a price, one deactivated and cancelled) whose links afterwards are those of no sound book. |
| `Replay.ReplaySide` | src/orderbook.c:928-958 | Replaying what a side logged does to the book what matching did. |
| `Replay.OpRebuilds` | src/orderbook.c:849-1025 | For every engine operation, replaying what it logged, each nameless taker given an id, does to the book what it did, and the book keeps only positive volumes. |
| `Replay.NextIsFresh` | src/orderbook.c:866-942 | After replay the id counter is beyond every id in the log, or exhausted. |
| `Replay.NextIsExact` | src/orderbook.c:866-942 | For 32-bit ids the counter is exhausted if and only if it was or 0xFFFFFFFF is in the log, and otherwise where it was or one more than an id in the log. |
| `AnyLog.ReplaySound` | src/orderbook.c:849-1025 | A log of any records: what is recovered is a well-formed book, and recovery fails if and only if it comes to an insertion that is not of a known product and organisation, named, new and with a slot left, or to a trade without taker, maker or enough volume. |
| `Replay.RecoveryTheorem` | src/orderbook.c:810-1034 | For every run of matches with any callback answers, cancels, bulk cancels, deactivations and activations: if every logged trade has a taker with an id, replaying the log on an empty book gives exactly the live book and an id counter of one more than the largest logged id (1 if there is none, exhausted if and only if 0xFFFFFFFF was logged); if one has not, recovery fails. |
| `Replay.ReplaySigned` | src/orderbook.c:928-942 | Whether takers have ids is all that replay asks of them: a log whose signed form can be replayed is itself replayed to the same state if every trade's taker has an id, and fails otherwise. |
| `Failures.NamelessTaker` | src/orderbook.c:935-938 | A run of the engine (an ask rests, a taker with id 0 trades with it) whose log recovery refuses. |
| `Recovery.ReplayInsert` | src/orderbook.c:851-910 | One insertion record on the real memory: succeeds or fails as the abstract step does; no slot is lost. |
| `Recovery.ReplayMatch` | src/orderbook.c:928-958 | One trade record on the real memory, cancelling an emptied maker, as the abstract step does. |
| `Recovery.Recover` | src/orderbook.c:810-1034 | The recovery loop on the real memory refines the abstract replay; it stops at the first record that cannot be applied; logging is restored. |
| `Recovery.Restart` | src/orderbook.c:810-1034 | A new process fed the log of any run succeeds if and only if every trade's taker has an id, and then has a sound book in memory that represents exactly the live book, and the id counter of the recovery theorem. |
| `RingSafety.StepInv` | src/om_bus_mp.c:271-426 | Every atomic action of producers and consumer keeps the ring invariant. |
| `RingSafety.ResolvedInOrder` | src/om_bus_mp.c:271-426 | In every interleaving tickets are resolved once each and in order, delivered exactly if committed; a failed commit belongs to a skipped ticket; every claimed ticket is accounted for. |
| `RingSafety.SkipIsFinal` | src/om_bus_mp.c:317-340 | A verdict never changes: after a skip no commit of the ticket succeeds, after a delivery none fails. |
| `RingSafety.CommitDecides` | src/om_bus_mp.c:317-330 | A commit goes through exactly when the consumer has not skipped the ticket. |
| `RingSafety.Bounded` | src/om_bus_mp.c:281-302 | At most capacity tickets are outstanding, or one more between the consumer's release and its cursor store. |
| `RingSafety.FullWitness` | src/om_bus_mp.c:281-302 | A producer is told FULL only at a moment when capacity tickets are claimed and not released. |
| `RingAnswers.ProducerTold` | src/om_bus_mp.c:281-302 | Exactly what a producer is told about the ticket it loaded: FULL if and only if it is capacity tickets beyond the first unreleased one, free if and only if it lies in the window and is not committed, and otherwise to load again. |
| `RingAnswers.ConsumerTold` | src/om_bus_mp.c:362-397 | A poll goes on to read if and only if the consumer's ticket is committed. |
| `RingAnswers.PublishGoes` | src/om_bus_mp.c:271-330 | With nobody else moving, an idle producer in a ring that is not full commits its record under the next ticket. |
| `RingAnswers.PollDelivers` | src/om_bus_mp.c:358-391 | With nobody else moving, a poll delivers a committed ticket's record and hands its slot to the next lap. |
| `RingAnswers.PollSkips` | src/om_bus_mp.c:393-426 | A ticket claimed and not committed is skipped by a poll once it is overdue and not before. |
| `RingAnswers.WaitSleeps` | src/om_bus_mp.c:428-461 | With nothing claimed a poll changes nothing and a wait ends asleep. |
| `RingLiveness.NoLostWakeUp` | src/om_bus_mp.c:428-461 | Whenever the consumer sleeps with tickets pending, each pending ticket has a producer that has yet to wake it. |
| `RingLiveness.DeliveredAsSent` | src/om_bus_mp.c:358-391 | The poll that copies: in runs without late writes every delivered record is the one sent under its ticket. |
| `RingLiveness.BorrowedAsSent` | src/om_bus_mp.c:463-521 | The polls that hand out the slot itself: in runs without late writes the slot still shows the record sent as long as the ticket of the next lap has not been claimed. |
| `RingFailures.OneLateWrite` | src/om_bus_mp.c:304-315 | In a ring of any capacity one late write suffices to deliver a payload that was not sent under the ticket. |
| `RingFailures.BorrowedChanges` | src/om_bus_mp.c:463-521 | In a ring of any capacity, without late writes: the slot handed out for a ticket shows another record once the producer of the next lap has written it. |
| `RingFailures.OneSlotFails` | src/om_bus_mp.c:83-85 | A ring of one slot, which the configuration check accepts, delivers for ticket 0 the record sent under ticket 1, without any late write. |
| `Broadcast.StepInv` | src/om_bus_shm.c:600-664 | Every step of publisher and broadcast endpoints keeps the invariant, slot cells being written and read one at a time. |
| `Broadcast.NeverTorn` | src/om_bus_shm.c:600-664 | However publisher and readers interleave, an endpoint has been given exactly the records published at the positions it has passed: none torn, lost or repeated. |
| `Broadcast.LappedMeans` | src/om_bus_shm.c:615-648 | LAPPED is returned only once overwriting of the position asked for has begun, and a record too large is never reported. |
| `BroadcastPolls.SeeFinds` | src/om_bus_shm.c:612-622 | Exactly what the first look of a poll finds in every reachable state: a record if and only if the position is published and not being overwritten, LAPPED if and only if a later lap has been published in its slot, otherwise nothing yet. |
| `BroadcastPolls.ReadsOn` | src/om_bus_shm.c:624-648 | A poll under way takes the record's cells one by one and returns it after the last, as long as overwriting has not begun. |
| `BroadcastPolls.PollFinds` | src/om_bus_shm.c:600-664 | A whole poll at a readable position returns the record published there and moves on by one. |
| `Backpressure.StepInv` | src/om_bus_shm.c:328-376 | Every step of the publisher, its scan of the tails and the endpoints keeps the invariant. |
| `Backpressure.DeliversAll` | src/om_bus_shm.c:328-438 | The cached minimum never exceeds an open endpoint's tail, no endpoint is more than a ring behind, and each has received exactly the published sequence up to its tail. |
| `Backpressure.NoOverwrite` | src/om_bus_shm.c:144-159 | While a slot is being written no open endpoint still has to read what was in it. |
| `Backpressure.PollFinds` | src/om_bus_shm.c:600-664 | The slot's seq is the one an endpoint waits for exactly when a record has been published at its position. |
| `BackpressurePolls.SeeFinds` | src/om_bus_shm.c:612-623 | The first look of a poll begins to read if and only if a record has been published there. |
| `BackpressurePolls.ReadsOn` | src/om_bus_shm.c:624-664 | A poll under way takes the record's cells one by one and delivers it after the last. |
| `BackpressurePolls.RescanGoes` | src/om_bus_shm.c:340-352 | A publisher without room that recomputes the minimum finds the least tail of the open endpoints, or the head if there is none. |
| `BackpressurePolls.RoomFound` | src/om_bus_shm.c:340-352 | It then writes if and only if no open endpoint is a whole ring behind. |
| `Crc.FeedDivides` | src/om_wal.c:68-76 | Shifting a message bit by bit through the register is polynomial long division. |
| `Crc.DivideLinear` | src/om_wal.c:68-76 | The division is linear. |
| `Crc.DivideUnits` | src/om_wal.c:68-76 | A remainder is its own remainder, and the generator times any power of x leaves none; with linearity this is what division by the generator means. |
| `Crc.TableStep` | src/om_bus_shm.c:110-118 | One table step is eight shifts with the byte mixed in. |
| `Crc.BuildTable` | src/om_wal.c:56-66 | Each of the 256 entries is its byte shifted eight times. |
| `Crc.Compute` | src/om_wal.c:68-76 | For every byte string and any 32-bit polynomial the table-driven checksum is the inverted remainder of the message, inverted in its first 32 bits; with the reflected polynomials this is CRC-32 of clause 3.2.9 of IEEE 802.3 and CRC32C of section 12.1 of RFC 3720. |
| `Crc.Checksums` | src/om_wal.c:56-76 | The two polynomials in use, each with its own table: the reflected 0xEDB88320 and 0x82F63B78. |
| `Crc.Generators` | src/om_wal.c:56-66 | The powers of x in the two generators: 26, 23, 22, 16, 12, 11, 10, 8, 7, 5, 4, 2, 1, 0 and 28, 27, 26, 25, 23, 22, 20, 19, 18, 14, 13, 11, 10, 9, 8, 6, 0, below x^32. |
| `LevelList.FindInsertPos` | src/om_market.c:243-328 | Head check, tail check, walk back from the hint, walk on from the hint, or plain walk: always the position of the plain walk from the head. |
| `LevelList.LinkOk` | src/om_market.c:333-370 | Linking there keeps the side strictly sorted with exact ends, count and a hint that is a member. |
| `LevelList.UnlinkOk` | src/om_market.c:373-408 | Unlinking keeps the side strictly sorted with exact ends, count and hint. |
| `LevelBooks.OpenOk` | src/om_market.c:440-465 | A new level: every slot stays in exactly one of free list and sides, maps stay exact, no other price changes. |
| `LevelBooks.CloseOk` | src/om_market.c:490-494 | A level removed under its own side: the same. |
| `LevelBooks.GrowOk` | src/om_market.c:127-171 | Growing the slab moves no level and adds only free slots. |
| `LevelBooks.LevelBook.AddQty` | src/om_market.c:414-466 | Shows exactly the added quantity at the price, opening a level if there is none; fails exactly on 64-bit overflow or when no slot can be had; every other price of every product is unchanged, and a price is opened on the side named only if it was not shown. |
| `LevelBooks.LevelBook.SubQty` | src/om_market.c:472-500 | Every price shows the right quantity; the ladders stay sound exactly unless a level is used up under the other side's flag, in which case the memory is no ladder whatever lists one reads into it. |
| `LevelBooks.BothSides` | src/om_market.c:472-500 | A reachable ladder (bid and ask at one price, both taken away) that is broken though nothing is shown. |
| `MarketFailures.RunIs` | src/om_engine.c:182-196 | A run of the engine (an ask, a bid of the same organisation at its price that excludes it, both cancelled) and the log it writes. |
| `MarketFailures.HearsRun` | src/om_market.c:472-500 | A public worker fed that log ends with ladders that are none, though every price rightly shows nothing. |
| `PublicMarket.PublicWorker.Process` | src/om_market.c:1511-1629 | One record, prices on both sides included: fails exactly when a number is out of range or a level is wanted and cannot be had; otherwise the worker's orders become what the record says, every price shows what its live orders still have, and the ladders are broken if and only if the record uses up a level on the other side than its order's. |
| `PublicMarket.RoomIs` | src/om_market.c:414-466 | In terms of the orders: there is room for an order if and only if the quantity at its price stays in 64 bits, slots running out only beyond 2^32 - 65 live orders. |
| `PublicMarket.PublicWorker.Feed` | src/om_market.c:1511-1629 | A whole log: succeeds only if all numbers and sums are in range, and if they are, with no more than 2^32 - 65 live orders, always; the orders kept are those heard. |
| `PublicMarket.PublicWorker.GetQty` | src/om_market.c:1669-1690 | The quantity at a price is the sum of what the live orders there still have. |
| `BookFeed.LogShows` | src/om_market.c:1511-1629 | Hearing a log and replaying it end at the same orders. |
| `BookFeed.RunQuiet` | src/om_engine.c:162-337 | Runs that match without a callback never leave a crossed book, nor log an insertion into one. |
| `BookFeed.Mirror` | src/om_market.c:1511-1629 | A public worker fed the log of any run without callback shows, at every price of every subscribed product, exactly the book's volume there, at most one side being non-empty; it succeeds if and only if all numbers and sums are in range, up to 2^32 - 65 live orders. |
| `Deltas.PutRefuses` | src/om_market.c:1198-1228 | A change the quantity can bear is refused exactly when a 64-bit range is left. |
| `Deltas.CopyDeltas` | src/om_market.c:1748-1772 | The window of changed prices in list order, or nothing when it does not fit. |
| `Deltas.ClearDeltas` | src/om_market.c:1788-1811 | Walking the dirty list clears every entry and starts a window at today's quantities. |
| `Deltas.WindowApplied` | src/om_market.c:1748-1811 | A client holding the quantities of the last clear holds today's after applying the window. |
| `Deltas.ClientFollows` | src/om_market.c:1198-1228 | Over any run of changes and publications the dirty list is exactly the touched prices, each once, with the change since the last clear, and the client reproduces the running quantities. |
| `PrivateMarket.ChangeIs` | src/om_market.c:1233-1262 | For an order that leaves or trades, the change computed is what the viewer sees afterwards minus before; for one that appears, that and what the callback answers for the record beyond what it answers for its rebuilt form. |
| `PrivateMarket.SeenMoves` | src/om_market.c:1233-1262 | At first a viewer sees the smaller of the volume and what it may deal with, and a trade takes away what it trades as far as that much is seen. |
| `PrivateMarket.ChangeMoves` | src/om_market.c:1324-1326 | The change recorded: what may be dealt with of an order that appears, minus what was seen of one that leaves, minus the smaller of what is traded and what was seen. |
| `PrivateMarket.FanOut` | src/om_market.c:1313-1331 | Succeeds exactly if no viewer's quantity refuses its change, and then records every viewer's. |
| `PrivateMarket.TurnTotals` | src/om_market.c:1268-1509 | What each viewer sees in all, with the drift of the insertions heard, changes by exactly what the fan-out records for it. |
| `PrivateMarket.UnderflowsWhen` | src/om_market.c:1198-1228 | The quantity a viewer is asked to hold is what it will see plus the drift, so that it is refused for being negative exactly where the drift outweighs what is seen. |
| `PrivateMarket.NeverUnderflows` | src/om_market.c:1198-1228 | If the callback has answered alike for every insertion and its rebuilt form, no viewer's quantity is ever asked to go below zero. |
| `PrivateMarket.NoDrift` | src/om_market.c:1233-1262 | There is no drift at any price if the callback has answered alike for every insertion heard. |
| `PrivateMarket.FirstDrift` | src/om_market.c:1324-1326 | The first insertion for which it answers differently causes drift at once: none if and only if the answers are alike. |
| `PrivateWorkers.PrivateWorker.Process` | src/om_market.c:1268-1509 | One record, any callback: fails exactly when a number is out of range, a level cannot be had or a viewer's quantity cannot take its change; otherwise every viewer's quantity moves by exactly what the record means for it (on a trade by the smaller of what is traded and what was seen) and at no other price, and is its recomputation from the live orders plus the drift. |
| `PrivateWorkers.PrivateWorker.Feed` | src/om_market.c:1268-1509 | The same over any record sequence; it succeeds only if all numbers, sums, quantities and windows stay in range, and if they do, with no more than 2^32 - 65 live orders, always. |
| `PrivateFeed.NotesWhatIsHeard` | src/om_market.c:1268-1509 | Whatever the log, the private worker keeps the same live orders as a public worker that listens to the products with subscribers. |
| `PrivateFeed.PrivateShows` | src/om_market.c:1268-1509 | Fed the log of any run without callback, it keeps the book's active orders. |
| `PrivateWorkers.PrivateWorker.Clear` | src/om_market.c:1788-1811 | Dropping a side's window of changes alters no quantity and starts the next window at today's. |
| `PrivateWorkers.PrivateWorker.SettledIs` | src/om_market.c:1635-1667 | If the callback has answered alike for every insertion, the recomputed quantity is the running one, at every price. |
| `PrivateWorkers.PrivateWorker.DriftShows` | src/om_market.c:1324-1326 | After the first insertion the two agree at its price if and only if the callback answered alike for it. |
| `PrivateFailures.LeftOver` | src/om_market.c:1233-1262 | A callback that answers half the record's volume: five are added, three seen, and after the cancel two stay on show with no order left. |
| `PrivateFailures.Stuck` | src/om_market.c:1198-1228 | A callback under which two are added and six seen: the cancel is refused. |
| `PrivateWorkers.PrivateWorker.GetQty` | src/om_market.c:1635-1667 | The sum recomputed from the live orders, in 64 bits, is the running quantity less the drift. |
| `Snapshot.CopyFull` | src/om_market.c:1891-1962 | Best price first, each row the recomputed quantity of its price with its cast to a signed change, complete unless cut off at the maximum, in which case only worse prices are missing. |
| `WalFormat.FrameParses` | include/openmatch/om_wal.h:208-215 | A framed record is read back as it was: packed header, payload, checksum. |
| `WalCodec.CodecBack` | include/openmatch/om_wal.h:35-103 | Every storable record is decoded from its payload, flags included. |
| `WalCodec.HeadParts` | include/openmatch/om_wal.h:18-32 | A record begins with two bytes for its length, one for its type (1 insertion, 2 cancel, 3 trade, 5 deactivation, 6 activation) and five for its number. |
| `WalCodec.InsertParts` | include/openmatch/om_wal.h:35-61 | Offset and width of every field of an insertion, user and aux data behind them. |
| `WalCodec.ShortParts` | include/openmatch/om_wal.h:64-89 | Offset and width of every field of a cancel, deactivation or activation. |
| `WalCodec.MatchParts` | include/openmatch/om_wal.h:92-101 | Offset and width of every field of a trade. |
| `WalCodec.FlagBits` | include/openmatch/om_slab.h:15-34 | Bit 0 of the flags is the side, bits 1 to 4 the type, bits 5 to 7 the status, 5 being deactivated. |
| `WalCodec.Persist` | src/om_wal.c:249-286 | A log is appended record by record if and only if the writer has not failed, numbers do not run out and every record fits header and buffer; what is logged decodes to it. |
| `WalWriter.Writer.Append` | src/om_wal.c:249-286 | 0 exactly if the log had failed, the payload is too long, it does not fit the buffer or sequence numbers have run out; otherwise the record is appended with the next number, flushing first when the buffer is short. |
| `WalWriter.Writer.Flush` | src/om_wal.c:417-456 | Loses nothing; writes the frames padded to the block size, in a new file if and only if this one would grow beyond the limit, so that a file longer than the limit holds a single flush. |
| `WalWriter.Writer.Reopen` | src/om_wal.c:146-211 | The scan goes through exactly if every gap on disk is fine, and then the sequence goes on where it was. |
| `WalWriter.ReadBack` | src/om_wal.c:505-754 | What is read back is what was appended but for what is still buffered, with contiguous numbers, exactly if every gap is fine. |
| `WalWriter.AlignedDisk` | src/om_wal.c:417-456 | Without checksums and with payloads in whole words every gap is fine. |
| `WalParse.FileParses` | src/om_wal.c:682-754 | A file of flushed blocks is read back exactly when its gaps are fine. |
| `WalParse.DiskParses` | src/om_wal.c:682-754 | All files together are read back exactly when all gaps are fine. |
| `WalParse.GapStops` | src/om_wal.c:701-716 | A gap of three to five bytes before another frame is never read past. |
| `WalParse.ShortGapStops` | src/om_wal.c:701-716 | With such a gap between two blocks everything before it is read, then an error. |
| `WalReader.Reader.Next` | src/om_wal.c:682-754 | Whatever sizes the reads return, the next record is the first of what a whole-file parse still gives, or its error, or its end. |
| `WalReader.ReadAll` | src/om_wal.c:505-754 | The buffered reader over all files is the whole-file parse. |
| `WalSound.FilesSound` | src/om_wal.c:682-754 | Any bytes: the records returned stand in the files as frames, with their checksums, known types and right sizes, one behind the other but for zero padding through block boundaries, and numbered without a gap from file to file; either that is all of the files, or there is an error and neither a frame that goes on nor padding stands where it is. |
| `WalSound.HeadRefused` | src/om_wal.c:717-721 | A header with an unknown type, without a number or with one that does not follow ends the parse with a read error. |
| `WalSound.FrameCut` | src/om_wal.c:722-728 | A frame cut off by the end of the file, or too long for the buffer, ends it as truncated. |
| `WalSound.SumWrong` | src/om_wal.c:740-744 | A trailer other than the checksum ends it with a mismatch. |
| `WalSound.PadWrong` | src/om_wal.c:703-715 | Padding is skipped if it is all zeros through the boundary, is a read error if not, and truncated if the file ends before. |
| `WalCodec.WriteAndRead` | src/om_wal.c:249-754 | A log encoded, appended, flushed, read back and decoded is the log, exactly if every gap on disk is fine; it is written exactly if it can be appended. |
| `ShortGap.Unreadable` | src/om_wal.c:417-456 | 58 trades and 9 insertions fill 4092 bytes; once they and one more record are flushed, reopening fails with 67 of 68 records read. |
| `Durable.Load` | src/orderbook.c:810-1034 | The files of a run's log, all gaps fine, are read, decoded and recovered into exactly the live book, if and only if every trade's taker has an id. |
| `Durable.SaveAndLoad` | src/orderbook.c:810-1034 | Without checksums and with user data in whole words: a run of the engine, persisted, flushed, read back, decoded and replayed gives exactly the live book if and only if its log can be appended and every trade's taker has an id, with no condition left on the disk. |
| `TcpFraming.DeliversPrefix` | src/om_bus_tcp.c:216-604 | In every run of broadcasts, partial sends, partial receives and closes, what a client delivers is a prefix of the records broadcast since its accept, and no frame is ever misread. |
| `TcpFraming.SinceAccept` | src/om_bus_tcp.c:355-400 | The same from a connection just accepted, whose buffers are empty. |
| `TcpFraming.Drained` | src/om_bus_tcp.c:271-284 | Once nothing is on its way and the connection was never closing, everything broadcast has been delivered. |
| `TcpFraming.BroadcastFits` | src/om_bus_tcp.c:216-269 | A record is queued, with the connection left open, if and only if its frame fits behind what is pending; otherwise the connection ends, with a warning if there is room for one. |
| `TcpFraming.OpenWhile` | src/om_bus_tcp.c:216-284 | A connection is open if and only if it was never closed and every record so far has fitted. |
| `TcpFraming.PollHears` | src/om_bus_tcp.c:528-604 | A poll delivers the next record sent if and only if all of its bytes have arrived by then. |
| `TcpFraming.WireBytes` | include/ombus/om_bus_tcp.h:26-40 | The bytes of a frame: the magic, type, flags, length, number and payload. |
| `TcpFraming.ParseMeans` | src/om_bus_tcp.c:560-590 | Any bytes: fewer than a header give nothing, another magic ends the stream, and a frame comes out if and only if all of it is there, and is those bytes. |
| `TcpBuffers.Outbox.Append` | src/om_bus_tcp.c:216-269 | Queues the frame, compacting if needed, and stays open if and only if it fits; otherwise ends the connection, with a warning if that still fits. |
| `TcpBuffers.Outbox.Send` | src/om_bus_tcp.c:420-437 | The pending bytes lose exactly the prefix the socket took. |
| `TcpBuffers.Inbox.Poll` | src/om_bus_tcp.c:528-604 | Delivers exactly the first frame of unread plus received bytes, through compaction; a frame that has arrived whole and fits is delivered by this poll or the next. |
| `TcpBuffers.NoFalseAlarm` | src/om_bus_tcp.c:590-600 | The sequence check reports nothing exactly when each number follows the one before, or is lower and that is tolerated. |

## Left out

- Replay.RecoveryTheorem: for runs in which takers have a slot of their own and cancels are harmless; what a harmful cancel does is under Findings. The exact counter is for 32-bit ids, which is what they are.
- AnyLog.ReplaySound: for logs whose insertions do not carry the status of a deactivated order.
- Submissions.ActivateMeans: for an order that crosses nobody; one that does is a submission like any other, `Submissions.SubmitMeans`.
- Engine.Match: needs a product of the book, because the code reads beyond its array for any other (see Findings).
- Allocation.ExcludeSide: for callbacks whose answers do not depend on the number of calls; exclusion makes fewer calls, so for one that counts them the two policies may differ, and what exclusion then does is `Visits.ExcludeSkipsOwn`.
- BookFeed.Mirror: says nothing about a worker after it has reported an error.
- PrivateWorkers.PrivateWorker.Process: says nothing after an error, and needs distinct live ids, distinct subscriptions and no price live on both sides; what a shared price does is `PublicMarket.PublicWorker.Process`.
- PublicMarket.PublicWorker.Process: needs ids that are not live twice and ladders not yet broken.
- LevelBooks.LevelBook.AddQty: refuses to grow past 2^32 - 1 slots, where the 32-bit sum in the program wraps.
- OrgCancel.CancelOrgProduct: from exact queues and from one head left behind, its slot free or used again; not from queues in which a left-behind slot has been used and left again.
- RingLiveness.NoLostWakeUp: the notify word is unbounded here and 32 bits in the program, so a sleeper that misses exactly 2^32 bumps is not covered.
- RingLiveness.DeliveredAsSent: for the copying poll with a buffer large enough, in runs without late writes; `RingFailures.OneLateWrite` shows why.
- Broadcast.NeverTorn: copying endpoints, polled one record at a time; zero-copy endpoints, batches, cursors, rewinding and seeking are not modelled, nor is the CRC check of a polled record.
- Backpressure.DeliversAll: endpoints opened before the first publication, staleness detection off, no seeking.
- Crc.Compute: the table-driven path, not the hardware instructions.
- Durable.SaveAndLoad: for a log whose appends all succeed; write and sync failures of the file system are not modelled.
- TcpFraming.DeliversPrefix: one connection; accepting, polling descriptors and the reconnecting client are not modelled.
- Weak memory orders, futexes, mappings, sockets, files and clocks as such: steps are sequentially consistent and results are inputs.
- The hash map and the balancing of the search tree are library code: a map and any search tree stand for them.
- User and aux data of an order beyond being stored and read back, and callbacks that change the book.
- 64-bit overflow of order volumes in the engine; volumes are natural numbers, and only `OrderBooks.OrderBook.VolumeAt` and the market workers wrap or refuse.
- Wrap-around of 64-bit tickets and positions in the rings.
- Null parameters and allocation failures.
- The market workers' list of dirty ladders, the `active` flag, public deltas and top-N cut-offs.
- The choice of the file a reopened log continues in, custom record types, and resuming at an offset.
- `om_orderbook_cancel_org_all` and `om_orderbook_cancel_product`, which only loop over what is modelled.
- `src/om_worker.c`, `include/ombus/om_bus_replay.h`, the relay, `src/om_perf.c`, `src/om_wal_mock.c`, tools and benchmarks.
