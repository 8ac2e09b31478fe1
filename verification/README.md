# Verified models of the queues, locks, allocator and cache

This project models six parts of the repository and proves what their comments and interfaces promise.

* **moodycamel's internals.** The reference-counted free list (`FreeList.dfy`), the optimistic counters of
  the sub-queues (`Dequeue.dfy`) and the growing circular block index of the implicit producer, as a value
  (`BlockIndex.dfy`), as seen by a lookup that loaded an older one (`BlockSnapshots.dfy`), and as a class
  (`ImplicitProducer.dfy`).
* **ConQueue and CLQueue.** One side of the bounded ring in its three modes (`HeadTail.dfy`), the whole queue
  as a bounded FIFO (`ConQueue.dfy`), how much each call gets (`ConQueueAmounts.dfy`), whole calls that run
  alone (`ConQueueAlone.dfy`), its 32-bit words (`ConQueueWords.dfy`), the bulk pop of a single-threaded
  consumer (`ConQueueSingle.dfy`), and the line-and-slot queue for one producer and one consumer
  (`CLQueue.dfy`).
* **TCQueue and the locks.** The locks from their integer encodings (`Locks.dfy`), the leader and follower
  batching protocol on top of them (`TCQueue.dfy`), and the routing of results (`BatchResults.dfy`).
* **AtomicQueue.** The index remapping (`Remap.dfy`), the cell-by-cell hand-over (`AtomicQueue.dfy`) and the
  order of delivery (`AtomicOrder.dfy`).
* **SegAllocator** (`SegAllocator.dfy`) and **LRUCache** (`LRUCache.dfy`), as classes.

`Bits.dfy` defines the bitwise operations as arithmetic, `Words.dfy` the words of 16, 32 and 64
bits, `Options.dfy` a value that may be missing, and `Counting.dfy` counts the members of sequences and sets.

A concurrent component is a state with one program counter per thread, a function `Next` that lets one thread
make one atomic load, store or read-modify-write, and a function `Exec` that folds `Next` over a schedule.
`ExecKeepsInv` shows an invariant of every run from every initial state, for any number of threads and any
schedule; the theorems after it say what follows. A wait is a step that changes nothing until its guard holds.
History variables, which no step of the program reads, are named in each module's header. A sequential
component is a class whose methods are proved against functions of its old state.

## Where the code decides

* The comment at queue-bench/moodycamel.h:2854-2855 says that a negative offset keeps its sign in the division.
  The block size is a `size_t`, so the division is unsigned; `BlockIndex.LookupFinds` shows that the masked
  result is right all the same, and `BlockIndex.LookupBound` exactly how far.
* A one-byte shared mutex carries 128 threads (`SharedMutex.Initial`), and not one more
  (`SharedMutex.ExclusiveExactly`). `TCQueue.Initial` therefore allows 128 threads.
* A spin mutex takes any lock number, but only the bits of its word exclude (`SpinMutex.ExclusiveExactly`).
* CLQueue's test for full fails when a line's head counter wraps before its tail counter
  (`CLQueue.FullTestExactly`), a run reaches such a state in every mode (`CLQueue.FullMissed`), and the next push
  overwrites the oldest value (`CLQueue.SpscQueue.Push`). Its mapping needs 64 lines with USE_BLOCK
  (`CLQueue.BlockOfLinesNeeded`).
* pop_bulk of a single-threaded consumer does not advance its tail in the loop, so its test never turns false: it
  takes all that it is asked for as soon as anything is there (`ConQueueSingle.TakesTooMany`), and nothing while
  its wrapped tail is above the producers' (`ConQueueSingle.TakesRightExactly`). top leaves out to_id
  (`ConQueueSingle.SingleConsumer.Top`).
* `allocate(0)` takes a whole free segment out of both indexes, and the prefix branch of `placement_allocate`
  leaves the block it returns free; the contracts of both methods say exactly when the invariant is kept.
* A batch with a repeated uid leaves a promise that nobody sets (`BatchResults.EachToItsOwn`).
* AtomicQueue hands values over by position only while at most two threads use it; among three a push or pop that
  stalls lets the value of a position a whole ring away take its place (`AtomicOrder.InOrderExactly`).
* The AtomicQueue of 2^31 cells always looks full (`AtomicQueue.WordTestsAgree`), and without
  MINIMIZE_CONTENTION a size that does not divide 2^32 loses its cells at the wrap
  (`AtomicQueue.WordIndexAgrees`).

## Model

| member | source | states |
|---|---|---|
| `FreeList.ExecKeepsInv` | queue-bench/moodycamel.h:1362-1441 | Every interleaving of any number of add and try_get calls keeps the whole invariant: each node's reference word, the list as an acyclic chain, and each thread's place agree. |
| `FreeList.OnePlace` | queue-bench/moodycamel.h:1362-1441 | Each node is in exactly one place: a client's, flagged with a reader still to leave, worked on by exactly one thread, or on the list once; two threads never work on one node. |
| `FreeList.RefcountMeaning` | queue-bench/moodycamel.h:1384-1408 | The low 31 bits of a node's word are the list's reference (or the linking thread's) plus the readers, and the top bit is set exactly while the node waits or is held to be linked. |
| `FreeList.NextStableWhileReferenced` | queue-bench/moodycamel.h:1390-1393 | While a node's low count is not zero no step of any thread changes its next pointer: the argument that excludes ABA. |
| `FreeList.CasInstallsSuccessor` | queue-bench/moodycamel.h:1392-1401 | When the head compare-exchange of try_get succeeds, it installs the true successor: the list loses its first node and nothing else, and stays a chain. |
| `FreeList.AssertHolds` | queue-bench/moodycamel.h:1394-1399 | The assertion that the taken node is not flagged holds in every run, and both references that are then dropped are counted. |
| `FreeList.GivenBetweenDeliveries` | queue-bench/moodycamel.h:1376-1401 | No node is delivered to two callers: between two deliveries of a node it was given back. |
| `FreeList.QuietPartition` | queue-bench/moodycamel.h:1362-1441 | No node is lost: with no call in progress every node is either a client's or on the list. |
| `FreeList.NothingOnlyIfEmpty` | queue-bench/moodycamel.h:1376-1413 | In every run a try_get that ends either delivers the node it took or returns null, and then the list was empty at an instant of that same call. |
| `FreeList.GoesOnAlone` | queue-bench/moodycamel.h:1362-1441 | Every step of a call that runs alone, from any reachable state, brings its end nearer, which is at most nineteen steps away: whatever it had loaded is loaded again. |
| `FreeList.SoloTryGet` | queue-bench/moodycamel.h:1376-1413 | A try_get that runs alone, wherever the other calls are, delivers the first node of the list, or null exactly if the list is empty. |
| `FreeList.SoloAdd` | queue-bench/moodycamel.h:1362-1374 | An add that runs alone, wherever the other calls are, ends with the node in front of the list, or flagged if it still has readers. |
| `Dequeue.CircularLessMeans` | queue-bench/moodycamel.h:395-403 | circular_less_than on 64-bit words orders unbounded counters correctly exactly while they are less than 2^63 apart. |
| `Dequeue.ExecKeepsInv` | queue-bench/moodycamel.h:1873-1968 | Every interleaving of single and bulk dequeues with a producer keeps the ticket invariant that ties the four counters to the tickets won, lost and pending. |
| `Dequeue.WinnersBounded` | queue-bench/moodycamel.h:1899-1921 | The counting argument of the comments: if each winner's ticket, less the losses before it, is below the tail, then the winners are never more than the tail. |
| `Dequeue.HeadNeverPassesTail` | queue-bench/moodycamel.h:1873-1968 | In every run the head index, even with the wins that have not advanced it yet, does not pass the tail index. |
| `Dequeue.TakenIsPublished` | queue-bench/moodycamel.h:2697-2705 | A single or bulk consumer about to advance the head index gets only indexes below the tail. |
| `Dequeue.OvercommitBelowMine` | queue-bench/moodycamel.h:1899-1908 | The assertion overcommit <= myDequeueCount holds in every run. |
| `Dequeue.QuietCounters` | queue-bench/moodycamel.h:1873-1968 | With no consumer at work the optimistic count less the overcommit is the head index, and at most the tail. |
| `Dequeue.ClaimsExactly` | queue-bench/moodycamel.h:2157-2163 | The first test: a dequeue claims exactly as many units as it asked for, or as there are beyond the units claimed by then less the losses it has seen, and gives up at once only if there are none. |
| `Dequeue.WinsExactly` | queue-bench/moodycamel.h:2169-2174 | The second test: of its units it wins exactly those for which there are elements, and gives the others back; it gives back any only if the tickets up to the last one won, less the losses it had seen, reach the tail. |
| `Dequeue.SoloDequeue` | queue-bench/moodycamel.h:2157-2247 | A dequeue that runs alone, wherever the other consumers are, gets from the head index on as much as it asked for or as there is beyond what the others hold; with no other at work that is beyond the head, and it gets nothing only if the sub-queue is empty. |
| `Dequeue.SmallRun` | queue-bench/moodycamel.h:395-409 | Every run that ends with fewer than 2^63 elements enqueued and units claimed stays in the window that circular_less_than presumes, so all of the above hold of it. |
| `ImplicitProducer.ImplicitProducerIndex.constructor` | queue-bench/moodycamel.h:2862-2904 | A new index of no live blocks, with the tail before the first slot and every key invalid, whatever the values of its entries. |
| `ImplicitProducer.ImplicitProducerIndex.NewBlockIndex` | queue-bench/moodycamel.h:2862-2904 | Growth doubles the index and keeps every live block findable; the entry after the new tail is unused; on failure nothing changes. |
| `ImplicitProducer.ImplicitProducerIndex.CopySlots` | queue-bench/moodycamel.h:2878-2887 | The copying loop lists the entries from the oldest to the tail's. |
| `ImplicitProducer.ImplicitProducerIndex.Insert` | queue-bench/moodycamel.h:2804-2829 | Insertion succeeds exactly if the block a whole index before the new one is not live or the index may grow; the assertion about the fresh slot holds; live blocks stay. |
| `ImplicitProducer.ImplicitProducerIndex.StoreBlock` | queue-bench/moodycamel.h:2442-2443 | The inserted entry gets the new block and nothing else changes. |
| `ImplicitProducer.ImplicitProducerIndex.Withdraw` | queue-bench/moodycamel.h:2831-2835 | An insertion without a block is undone by the rewind and the clearing of the value. |
| `ImplicitProducer.ImplicitProducerIndex.Lookup` | queue-bench/moodycamel.h:2844-2860 | Looking up any index in a live block, also while an inserted entry still waits for its block, returns the slot whose key is that block's base and whose value is that block; both assertions hold. |
| `ImplicitProducer.ImplicitProducerIndex.LookupThrough` | queue-bench/moodycamel.h:2844-2860 | A lookup that loaded the index and its tail earlier finds every block that was there then and is still live, whatever insertions, rewinds, releases, rollbacks and growths came in between: every method keeps every such snapshot. |
| `BlockSnapshots.FindsThrough` | queue-bench/moodycamel.h:2844-2860 | Through an older index the tail's key is still that of its block and the masked quotient leads to the live block's own entry, since an entry behind it cannot be reused while its block is live. |
| `BlockSnapshots.ShareInsert` | queue-bench/moodycamel.h:2804-2829 | Reusing an entry for a new block costs an older index only blocks that are no longer live. |
| `BlockSnapshots.ShareGrow` | queue-bench/moodycamel.h:2862-2904 | The larger index shares the entries of all blocks that any older index still leads to, because growth happens only when the next entry is taken. |
| `ImplicitProducer.ImplicitProducerIndex.Release` | queue-bench/moodycamel.h:2761-2770 | A consumer that clears the entry of an emptied block, also while an inserted entry waits for its block, removes that block and no other. |
| `ImplicitProducer.ImplicitProducerIndex.RollbackOne` | queue-bench/moodycamel.h:2576-2579 | One round of the rollback: a block that may be ahead of the tail already rewound is found, cleared, and the tail goes back one more. |
| `ImplicitProducer.ImplicitProducerIndex.Rollback` | queue-bench/moodycamel.h:2574-2580 | The rollback from the first to the newest of the reserved blocks removes exactly those, though the lookups start from a tail that moves back under them. |
| `ImplicitProducer.ImplicitProducerIndex.ReserveBlocks` | queue-bench/moodycamel.h:2549-2606 | The block reservation of enqueue_bulk, of any number of blocks, succeeds exactly if every round has room, a block, and an entry that is not in use or an index that may grow, each at the capacity that the rounds before have reached; on failure the index has the blocks it had before, otherwise those and the new ones in order. |
| `BlockIndex.FindsBlock` | queue-bench/moodycamel.h:2844-2860 | With the tail any number of slots behind the newest block, and that block with or without its value, a lookup still finds every live block, behind the tail or ahead of it. |
| `BlockIndex.LookupFinds` | queue-bench/moodycamel.h:2849-2857 | The masked unsigned quotient of the wrapped difference of two bases is the slot as many blocks away, for negative offsets too, if an index of blocks fits into 2^64. |
| `BlockIndex.LookupBound` | queue-bench/moodycamel.h:2854-2857 | That bound is exact: the block before the tail's is found if and only if capacity times block size is at most 2^64. |
| `HeadTail.AdvanceKeepsInv` | conqueue.h:79-201 | Every step of a thread of one side, in each of the three modes, keeps the invariant of claims, releases and worked slots; in ordered modes the count word is arbitrary. |
| `HeadTail.RtsCasStep` | conqueue.h:318-331 | The relaxed tail's compare-exchange keeps the invariant even if the head moved between its load and the exchange. |
| `HeadTail.TurnStep` | conqueue.h:304-316 | In an ordered side a thread moves the tail only when all earlier claims are finished. |
| `HeadTail.BelowTailWorked` | conqueue.h:318-331 | The tail position only takes values below which every claimed slot is finished, and tail <= head <= limit. |
| `HeadTail.RtsCounts` | conqueue.h:97-109 | In a relaxed side the head count less the tail count is the number of claims in flight, and equal counts imply equal positions. |
| `HeadTail.QuietReleased` | conqueue.h:304-331 | With nobody at work every claim has been released. |
| `HeadTail.FailsOnlyAtLimit` | conqueue.h:85-96 | An operation that wants something gives up, wherever it is before its claim, exactly when it tests a head that it loaded, is current and is at the limit. |
| `HeadTail.GoesOnAlone` | conqueue.h:85-112 | Before its claim, and again in a relaxed release, every step of an operation that runs alone without spurious failures brings the claim or the release nearer, which is at most four steps away. |
| `HeadTail.WorkersApart` | conqueue.h:79-112 | Two threads of a side never work on the same position. |
| `HeadTail.NobodyIsStuck` | conqueue.h:304-316 | The only wait of a side is for one's turn, and then the owner of the oldest claim is at work or has its turn. |
| `HeadTail.OldestGoesOn` | conqueue.h:304-316 | Each step of that owner, whatever the other threads do, brings its release nearer by one, and the last moves the tail to the next claim. |
| `ConQueue.NobodyWaitsInVain` | conqueue.h:304-316 | In every reachable queue, on either side, a thread that cannot go on waits for its turn while the oldest claim is at work. |
| `ConQueue.ExecKeepsInv` | conqueue.h:79-255 | Every run of any mix of producer and consumer modes keeps both sides' invariants, the ring contents and the values in flight. |
| `ConQueue.SlotsNeverShared` | conqueue.h:257-290 | cons_tail <= cons_head <= prod_tail <= prod_head <= cons_tail + capacity in every reachable state, and no two operations in flight are at the same slot. |
| `ConQueue.SlotExclusive` | conqueue.h:287-290 | Distinct positions between the consumer tail and the producer head have distinct slots. |
| `ConQueue.ReadsItsValue` | conqueue.h:186-198 | The slot a consumer reads holds the value that the producer of that position wrote. |
| `ConQueue.RefinesFifo` | conqueue.h:79-255 | Every step of every run is a step of a bounded FIFO: a producer's claim puts the accepted prefix of its values at the back, a consumer's takes a run from the front, every other step leaves the queue alone. |
| `ConQueue.ProducerEnqueues` | conqueue.h:120-162 | A claim of push_bulk appends a contiguous prefix of its arguments to the abstract queue. |
| `ConQueue.ConsumerDequeues` | conqueue.h:209-255 | A claim of pop or pop_bulk takes a run from the front of the abstract queue, which its slots still hold. |
| `ConQueue.PromiseKept` | conqueue.h:163-255 | A consumer that has emptied its slots has moved out, in order, the values that were at the positions it claimed. |
| `ConQueue.PushFailsOnlyWhenFull` | conqueue.h:79-162 | A push or push_bulk gives up, wherever it is before its claim, only at an instant when capacity positions are claimed and not released. |
| `ConQueue.PopFailsOnlyWhenEmpty` | conqueue.h:163-255 | A pop or pop_bulk gives up, wherever it is before its claim, only at an instant when nothing is published and unclaimed. |
| `ConQueueAmounts.ClaimsExactly` | conqueue.h:79-255 | In every run, in any mode, a claim is of exactly as many positions as the call asked for, or as there were to claim at an instant of that call if fewer, with no other claim in between. |
| `ConQueueAmounts.PushAppendsItsOwn` | conqueue.h:120-162 | What a push or push_bulk appends to the abstract queue is the longest prefix of the values of its own call for which there was room at an instant of that call. |
| `ConQueueAmounts.PopTakesOne` | conqueue.h:163-201 | A pop takes exactly the oldest value of the abstract queue. |
| `ConQueueAlone.PushesAlone` | conqueue.h:120-162 | From its call to its end, with no other push in progress and in any mode, push_bulk takes at most eight steps and one for each value, appends as many of its values as there is room for, and has published them. |
| `ConQueueAlone.PopsAlone` | conqueue.h:163-255 | Likewise pop and pop_bulk move out the oldest values in their order, as many as were asked for or are published, and these are gone from the queue. |
| `ConQueueAlone.PushClaimsAtOnce` | conqueue.h:120-162 | Wherever the other operations are, a push that runs alone from its call has claimed room for as many of its values as there is after three steps. |
| `ConQueueAlone.PopClaimsAtOnce` | conqueue.h:209-255 | And a pop or pop_bulk has claimed the oldest values, as many as it asked for or as are published and unclaimed. |
| `ConQueueSingle.SingleConsumer.PopBulk` | conqueue.h:209-220 | pop_bulk with F_SC_DEQ moves out all it was asked for if the word of its tail is below that of the producers' tail, and otherwise nothing; the consumer stays behind the producers exactly if that is no more than was published. |
| `ConQueueSingle.TakesRightExactly` | conqueue.h:212-219 | So it takes what is there, up to what it was asked for, if and only if it was asked for nothing, or nothing is there, or it was asked for no more than is there and the 32-bit position does not wrap on the way. |
| `ConQueueSingle.TakesTooMany` | conqueue.h:212-219 | A witness: of a queue of one value it moves out two slots, the second empty. |
| `ConQueueSingle.MovesOutInOrder` | conqueue.h:212-219 | When it takes no more than a ring, in a ring whose slots survive the wrap or without a wrap, these are the slots of its positions in their order. |
| `ConQueueSingle.SingleConsumer.Top` | conqueue.h:69 | top refers to the slot of the oldest value exactly if the word of the tail is its own slot, that is, inside the ring. |
| `ConQueueWords.ProducerTestsAgree` | conqueue.h:85-96 | The 32-bit test for full and the room of a bulk push agree with the unbounded ones while the loaded head lags by less than 2^32. |
| `ConQueueWords.ConsumerTestsAgree` | conqueue.h:172-184 | The 32-bit test for empty and the availability of a bulk pop agree with the unbounded ones under the same hypothesis. |
| `ConQueueWords.SideTestsAgree` | conqueue.h:318-331 | The compare-exchanges of both halves of the head and the tail word, and the count test of the relaxed tail, succeed on words exactly when they do on unbounded values; in a relaxed side the count bounds how old a loaded head may be. |
| `ConQueueWords.TurnTestAgrees` | conqueue.h:304-316 | The wait of default_update_ht ends on words exactly when it does on positions, in every reachable state of a queue of fewer than 2^32 elements. |
| `ConQueueWords.MaskedSlot` | conqueue.h:287-302 | Outside the exact mode to_id of a wrapped 32-bit position is the position modulo the ring, which is the least power of two that holds max_size. |
| `ConQueueWords.ExactSlot` | conqueue.h:287-290 | In the exact mode the slots of all positions survive the 32-bit wrap if and only if the size divides 2^32. |
| `ConQueueWords.ExactSlotsApart` | conqueue.h:287-290 | Positions less than the size apart have distinct slots in the exact mode if and only if the size divides 2^32: otherwise two of them meet at the wrap. |
| `ConQueueWords.WordSlotsNeverShared` | conqueue.h:257-302 | In every reachable state, however often the 32-bit positions have wrapped, two operations in flight are at different slots to_id of their words, outside the exact mode and in it for sizes that divide 2^32. |
| `Bits.RoundUpIsLeast` | conqueue.h:292-302 | The shift-and-or ladder of aligned_size gives the least power of two that is not below the size, for every size up to 2^31. |
| `CLQueue.VisitPlace` | conqueue.h:607-621 | The k-th visit to a line, with and without blocks, is at that line and at slot k mod SLOT_MAX_INLINE. |
| `CLQueue.IsVisit` | conqueue.h:607-621 | Every position is a visit of its line. |
| `CLQueue.NextVisitIs` | conqueue.h:607-621 | The slot of a position is the number of earlier positions of its line modulo the slots of a line. |
| `CLQueue.CountPeriod` | conqueue.h:607-621 | A whole queue later every line has been visited exactly once for each of its slots. |
| `CLQueue.SlotsApart` | conqueue.h:607-621 | Positions less than the capacity apart are at different slots. |
| `CLQueue.BlockOfLinesNeeded` | conqueue.h:607-621 | With USE_BLOCK and fewer than 64 lines two positions of one round share a slot, so the condition is exact. |
| `CLQueue.FullByLine` | conqueue.h:437-443 | The counters of the head's line differ by SLOT_MAX_INLINE exactly if the whole queue is full. |
| `CLQueue.EmptyByLine` | conqueue.h:492-498 | The counters of the tail's line agree exactly if the whole queue is empty. |
| `CLQueue.FullTestExactly` | conqueue.h:441-442 | The 16-bit counters of the head's line, compared as int, differ by SLOT_MAX_INLINE if and only if the queue is full and both have wrapped equally often. |
| `CLQueue.FullIsMissed` | conqueue.h:441-442 | With one line of 7 slots, head 65535 and tail 65528, the queue is full and the test says that it is not. |
| `CLQueue.EarlyIsExact` | conqueue.h:441-442 | No counter has wrapped, and the full test is right, as long as the pushes are within as many rounds of the queue as fit into 16 bits. |
| `CLQueue.FirstMissMeans` | conqueue.h:441-442 | In every mode the queue that is full after the given number of pops has a head counter that has wrapped and a tail counter that has not. |
| `CLQueue.FullMissed` | conqueue.h:437-447 | In every mode a run of pushes and pops leads to a full queue whose full test says that there is room. |
| `CLQueue.EmptyTestExactly` | conqueue.h:496-497 | The 16-bit counters of the tail's line agree if and only if they differ by a multiple of 2^16: the empty test is right while the head is at most the capacity ahead, and wrong 2^16 visits after a missed full. |
| `CLQueue.LinesFor` | conqueue.h:354-361 | The sizing loop finds the least number of lines, a power of two, that holds max_size. |
| `CLQueue.Create` | conqueue.h:336-364 | A size of 0 is refused; any other gives a queue of at least that capacity, empty and with a sound mapping exactly if USE_BLOCK is off or the size needs 64 lines. |
| `CLQueue.SpscQueue.PushTest` | conqueue.h:437-443 | On 16-bit line counters the producer's test is true exactly if fewer positions than the capacity are unreleased, or the counters of the head's line have wrapped unequally often, whatever the consumer is doing. |
| `CLQueue.SpscQueue.PushWrite` | conqueue.h:444-445 | The value goes to the claimed slot and disturbs no value still in the queue or being popped. |
| `CLQueue.SpscQueue.Push` | conqueue.h:434-486 | push appends its value, or returns false exactly if the queue is full and leaves it alone, in every state but one: full, with the head counter wrapped first, it overwrites the oldest value. |
| `CLQueue.SpscQueue.PopTest` | conqueue.h:489-498 | On 16-bit line counters the consumer's test is true exactly if a published value is left, whatever the producer is doing. |
| `CLQueue.SpscQueue.PopTake` | conqueue.h:499-501 | The consumer moves out the value pushed at the position it claimed. |
| `CLQueue.SpscQueue.Pop` | conqueue.h:489-564 | pop returns the oldest value and removes it, or fails exactly on an empty queue. |
| `CLQueue.SpscQueue.Clear` | conqueue.h:395-408 | clear leaves an empty queue with its counters as at the start. |
| `CLQueue.Run` | conqueue.h:434-564 | For every interleaving of the steps of a producer and a consumer the popped values are a prefix of the pushed ones, at most the capacity behind, up to the first push whose test misses a full queue; there is none in the rounds that fit into 16 bits. |
| `SharedMutex.ExecKeepsInv` | extend_mutex.h:137-177 | In every run of at most 2^(w-1) threads the lock word is twice the registered readers plus the writer. |
| `SharedMutex.WriterExcludes` | extend_mutex.h:143-173 | While a thread holds the shared mutex for writing no other thread writes or reads. |
| `SharedMutex.TooManyThreads` | extend_mutex.h:149-160 | With any greater number of threads there is a run that ends with a writer among readers. |
| `SharedMutex.ExclusiveExactly` | extend_mutex.h:137-177 | A writer excludes all others in every run if and only if there are at most half as many threads as the word has values. |
| `SharedMutex.GetsExactly` | extend_mutex.h:143-169 | Of every step of an attempt in every run: without a spurious failure a writer gets the mutex exactly if nobody writes, reads or asks to read, and a reader exactly if nobody writes; otherwise lock and lock_shared wait and only the attempts end. |
| `SharedMutex.LocksAlone` | extend_mutex.h:143-173 | So each of the four calls gets a mutex that is free for it at its first step, and its unlock gives the whole state back. |
| `SharedMutex.NobodyIsStuck` | extend_mutex.h:137-177 | As long as a thread is in a call or holds the mutex some thread can go on. |
| `IntentionMutex.ExclusiveIsAlone` | extend_mutex.h:200-213 | The holder after an upgrade is alone and unlocks from the value 1. |
| `IntentionMutex.OneWinnerNoNewReader` | extend_mutex.h:187-209 | An upgrade has at most one winner, its bit is set exactly while there is one, and no reader is admitted meanwhile. |
| `IntentionMutex.GetsExactly` | extend_mutex.h:187-209 | A reader with the current word gets in exactly if there is no winner, try_lock_prompt wins exactly if nobody else has, and the winner gets the mutex exactly when nobody holds it any more. |
| `IntentionMutex.UpgradesAlone` | extend_mutex.h:187-213 | With nobody upgrading a thread reads at once and its unlock gives the state back; with nobody else reading it upgrades, and the unlock leaves the mutex free. |
| `IntentionMutex.NobodyIsStuck` | extend_mutex.h:186-213 | As long as a thread is in a call or holds the mutex some thread can go on: an upgrade waits only for readers that can leave. |
| `TicketMutex.ServedInOrder` | extend_mutex.h:92-112 | At most one thread holds the ticket mutex, with the oldest outstanding ticket, through 16-bit wrap with fewer than 2^16 threads. |
| `TicketMutex.TurnIsExact` | extend_mutex.h:94-99 | A waiting thread sees its turn on the 16-bit words exactly when its ticket is the next one. |
| `TicketMutex.GetsExactly` | extend_mutex.h:101-110 | try_lock goes on from its test exactly if nobody has a ticket, and then gets the lock unless it fails spuriously or somebody took a ticket meanwhile. |
| `TicketMutex.LocksAlone` | extend_mutex.h:94-112 | If nobody has a ticket lock and try_lock get the lock with the next one, and the unlock calls the one after it. |
| `TicketMutex.NobodyIsStuck` | extend_mutex.h:94-112 | A thread that waits has the thread of the oldest ticket before it, which can go on. |
| `SpinMutex.BitsExclude` | extend_mutex.h:60-84 | Each bit of the word is a mutual exclusion of its own. |
| `SpinMutex.GetsExactly` | extend_mutex.h:68-73 | Each test of try_lock(i) lets the thread go on exactly if nobody holds lock i, or if it is no bit of the word. |
| `SpinMutex.LocksAlone` | extend_mutex.h:68-77 | A lock that nobody holds is got by try_lock whatever the other locks are, and its unlock gives the word back as it was. |
| `SpinMutex.ExclusiveExactly` | extend_mutex.h:60-90 | Lock i is exclusive in all runs of two or more threads if and only if i is below the width of the word: the mask of any other is truncated to zero, and both callers get it. |
| `TCQueue.ExecKeepsInv` | tcq.h:174-289 | Every run of at most 128 threads through task_enqueue keeps the invariant of leader, barrier, counters, places and batches. |
| `TCQueue.BarrierHolds` | tcq.h:220-227 | When the leader has the barrier mutex no follower is at the queues. |
| `TCQueue.BehindBarrier` | tcq.h:224-233 | Behind the barrier every place given is written and confirmed, and the confirmation counter is their number. |
| `TCQueue.FollowersOnlyWhileOpen` | tcq.h:252-285 | A follower touches the queues only while a leader keeps the batch open or waits for the barrier. |
| `TCQueue.OneLeader` | tcq.h:180-235 | There is one leader at a time. |
| `TCQueue.PlacesApart` | tcq.h:135-140 | Two threads never work at the same place, and every place is inside the queues. |
| `TCQueue.BatchIsComplete` | tcq.h:229-239 | The batch that the leader takes has exactly the places given, all written, and nobody is still at the queues. |
| `TCQueue.AcceptedOnce` | tcq.h:174-289 | Every call is in progress without a place, or sits at exactly one place of exactly one batch. |
| `TCQueue.RefusedWaitsForItsBatch` | tcq.h:264-274 | A refused follower waits on only for the batch that refused it, as long as fewer than 256 batches are opened meanwhile: what queue_ver is for. |
| `TCQueue.LeaderIsFirst` | tcq.h:196-201 | With max_count >= 1 the leader always gets place 0, which the code uses without a test. |
| `TCQueue.CounterBounded` | tcq.h:135-140 | A thread that asks for a place finds the claim counter below max_count plus the number of threads. |
| `TCQueue.ClosesWhenFull` | tcq.h:213-220 | Without a timeout the leader closes the batch exactly when every place is given, confirmed and written with its call. |
| `TCQueue.JoinsOpenBatch` | tcq.h:249-286 | A call made while the batch is open with room, wherever the other calls are, is in the batch after eight steps alone: at the next place, written and confirmed. |
| `TCQueue.LeadsAlone` | tcq.h:180-236 | With no other call in progress a call leads its own batch: once its time is out it is over after seventeen steps, with one batch more, of that call alone, and the queue at rest. |
| `TCQueue.NobodyIsStuck` | tcq.h:174-289 | As long as any call is in progress some thread is not waiting, at the barrier, for the mutex, for a full batch to end or to try again, and goes on if it is run. |
| `BatchResults.LeaderState.constructor` | tcq.h:231-246 | The leader's state has an unset promise for each task and maps each uid to its first place. |
| `BatchResults.LeaderState.ProcessBatch` | tcq.h:91-112 | process_batch delivers the answers in order up to the first failure; it is done, and does nothing again, exactly if there was none. |
| `BatchResults.DeliverMeans` | tcq.h:100-109 | The loop ends without an exception exactly if every answer is for a uid of the batch and none is answered twice; then exactly the answered promises are set, each to its own result. |
| `BatchResults.FailsAtFirstBad` | tcq.h:96-110 | Otherwise the exception comes from the first bad answer and tells its kind, and by then exactly the promises of the answers before it are set, each to its own result. |
| `BatchResults.DoneExactly` | tcq.h:95-111 | With distinct uids the batch is processed exactly if the answers are a permutation of them. |
| `BatchResults.EachToItsOwn` | tcq.h:243-246 | Each task's promise holds the answer for its own uid; every promise is set exactly if the uids are distinct, and a repeated uid leaves one that nobody sets. |
| `Remap.Swaps` | queue-bench/atomic_queue.h:86-98 | remap_index exchanges the two lowest groups of BITS bits and keeps the rest. |
| `Remap.Involution` | queue-bench/atomic_queue.h:86-98 | remap_index is its own inverse. |
| `Remap.Permutes` | queue-bench/atomic_queue.h:65-72 | With a ring of a power of two of at least 2^(2 BITS) the indexes below the size are permuted. |
| `Remap.StaysExactly` | queue-bench/atomic_queue.h:65-72 | On a smaller ring of more than one cell some index leaves it: the min_size test is exact. |
| `Remap.CellsApart` | queue-bench/atomic_queue.h:391-401 | Positions less than the ring apart have distinct cells. |
| `Remap.ChosenLayout` | queue-bench/atomic_queue.h:378-383 | The size and shuffle that the templates choose give such a layout for every size up to 2^31. |
| `AtomicQueue.ExecKeepsInv` | queue-bench/atomic_queue.h:176-315 | Every run of try_push and try_pop, on atomic elements or with the four cell states, keeps each cell's balance of contents and pending calls. |
| `AtomicQueue.Conservation` | queue-bench/atomic_queue.h:176-315 | The completed pushes are, as a multiset, the completed pops and the stored elements, and tail <= head <= tail + size. |
| `AtomicQueue.NobodyIsStuck` | queue-bench/atomic_queue.h:202-276 | A pop that waits at a cell has a push there that can go on now, and a push that waits has such a pop. |
| `AtomicQueue.FailsOnlyAtLimit` | queue-bench/atomic_queue.h:279-315 | Any step that ends a try_push either completes the push of its own value or happens when size positions are claimed and not released; any step that ends a try_pop completes a pop or happens when none is. |
| `AtomicQueue.GoesOnAlone` | queue-bench/atomic_queue.h:287-311 | Before its claim every step of a call that runs alone brings the claim or the end of the call nearer: a lost exchange loads the counter again. |
| `AtomicQueue.PushesAlone` | queue-bench/atomic_queue.h:202-297 | With no call at a cell a try_push that runs alone stores its value in the cell of the head and moves the head in at most six steps, or changes nothing if the ring is full. |
| `AtomicQueue.PopsAlone` | queue-bench/atomic_queue.h:176-315 | Likewise a try_pop takes the value in the cell of the tail, or nothing exactly if there is none. |
| `AtomicQueue.SizeAtRest` | queue-bench/atomic_queue.h:354-358 | With no thread at a cell the difference of the counters is the number of values stored. |
| `AtomicOrder.InOrderExactly` | queue-bench/atomic_queue.h:176-315 | For every layout and both element kinds: in all runs each pop gets the value of the push that claimed its position if and only if at most two threads use the queue, or it is only pushed to or only popped from. |
| `AtomicOrder.OneToOneIsFifo` | queue-bench/atomic_queue.h:176-315 | With one producer and one consumer the popped values are a prefix of the pushed ones. |
| `AtomicOrder.TwoThreads` | queue-bench/atomic_queue.h:176-315 | Two threads, each pushing and popping as it likes, keep every value between its push and its pop in the cell of its position. |
| `AtomicOrder.TwoProducersFail` | queue-bench/atomic_queue.h:279-311 | With two producers and a consumer a push that stalls is overtaken by the one a whole ring later, on rings of every size. |
| `AtomicOrder.TwoConsumersFail` | queue-bench/atomic_queue.h:279-311 | With a producer and two consumers a pop that stalls leaves its value to the pop a whole ring later, on rings of every size. |
| `AtomicQueue.WordTestsAgree` | queue-bench/atomic_queue.h:282-308 | The signed tests on 32-bit words are those on unbounded counters for sizes below 2^31; at 2^31 the queue always looks full. |
| `AtomicQueue.WordIndexAgrees` | queue-bench/atomic_queue.h:391-401 | The cell of a wrapped 32-bit position is that of the position if and only if the size divides 2^32. |
| `SegAllocator.CanonicalForm` | seg_allocator.h:12-34 | A coalesced segment map is determined by the set of addresses it covers, in both directions. |
| `SegAllocator.SegAllocator.constructor` | seg_allocator.h:12-18 | A new allocator has one free segment in both indexes. |
| `SegAllocator.SegAllocator.Allocate` | seg_allocator.h:20-34 | allocate cuts its block from the smallest sufficient segment, the lowest on ties, and fails exactly if none suffices; the invariant is kept except, exactly, when a size of 0 makes a segment vanish. |
| `SegAllocator.SegAllocator.Deallocate` | seg_allocator.h:74-118 | deallocate of an outstanding block, in all four merge cases, keeps the invariant and removes that block. |
| `SegAllocator.SegAllocator.Join` | seg_allocator.h:92-117 | The four merge cases change both indexes to the filled map. |
| `SegAllocator.SegAllocator.PlacementAllocate` | seg_allocator.h:36-72 | Placement succeeds exactly if a free segment has the whole block; inside a segment and at its end it keeps the invariant, at its beginning it does not. |
| `SegAllocator.PrefixOverlaps` | seg_allocator.h:54-58 | The prefix branch records the remainder where the block is, so that a free segment overlaps an outstanding block. |
| `SegAllocator.FillCovers` | seg_allocator.h:92-117 | Putting a block back covers its addresses and those covered before. |
| `SegAllocator.CarveCovers` | seg_allocator.h:25-32 | Cutting a block uncovers exactly its addresses. |
| `SegAllocator.DeterminedByBlocks` | seg_allocator.h:20-118 | Both indexes are determined by the outstanding blocks. |
| `SegAllocator.AllFree` | seg_allocator.h:74-118 | Without outstanding blocks the region is one free segment in both indexes. |
| `SegAllocator.AllocateAndDeallocate` | seg_allocator.h:20-118 | An allocation that is given back restores both indexes exactly. |
| `SegAllocator.DeallocateAll` | seg_allocator.h:74-118 | Giving back every outstanding block in any order leaves the state of a new allocator. |
| `LRUCache.LRUCache.Put` | cache.h:13-31 | put refines the recency sequence: the key comes to the front, and of a full cache the last entry goes. |
| `LRUCache.LRUCache.Get` | cache.h:33-44 | get returns the value of the key and brings it to the front, or misses exactly if it is not there and changes nothing. |
| `LRUCache.LRUCache.Evict` | cache.h:21-25 | Of a full cache the least recently used entry goes and its list node serves the new key at the front. |
| `LRUCache.HeldInOrder` | cache.h:13-44 | After any trace the entries are in the order of their last use, with the values last put. |
| `LRUCache.RecentStays` | cache.h:20-28 | A key that was in the cache after its last use is still there if fewer than capacity other keys were used since. |
| `LRUCache.StaysExactly` | cache.h:20-28 | If only puts followed, it is still there exactly if they were with fewer than capacity keys. |
| `LRUCache.Inclusion` | cache.h:13-44 | On the same trace a smaller cache holds a subsequence of what a larger one holds, and all of it while it is not full. |
| `LRUCache.LargerNeverMisses` | cache.h:33-44 | A larger cache never misses where a smaller one hits, and finds the same value. |

## Left out

- Concurrent operations are steps of a machine on values, not methods on a shared heap. FreeList's `add` is
  a step only for a node that its caller owns.
- Weak memory orders, fences, pauses and yields: the machines are sequentially consistent.
- Liveness and fairness: waits are guarded steps. That some thread can always go on is proved of AtomicQueue,
  ConQueue, TCQueue and the shared, intention and ticket mutexes, and that a call that runs alone ends of
  FreeList, Dequeue, ConQueue, AtomicQueue and TCQueue; that a given thread ever goes on among others is not.
- Dequeue.HeadNeverPassesTail: assumes that no test compares counters 2^63 or more apart, which is what
  circular_less_than itself assumes and what `Dequeue.SmallRun` derives for runs below 2^63 units; longer runs
  are covered only under that assumption. The other Dequeue theorems assume it too.
- ConQueueWords.ProducerTestsAgree: assumes that no loaded word lags its counter by 2^32 or more; the machine
  of ConQueue has unbounded positions, and these lemmas relate them to the words.
- ConQueue.PopFailsOnlyWhenEmpty: pop_bulk of a single-threaded consumer side (conqueue.h:212-219), which does not
  meet it, is not a step of the machine but a method of its own, `ConQueueSingle.SingleConsumer.PopBulk`, while no
  producer publishes; clear (conqueue.h:70-76) is not modelled.
- CLQueue.Run: the multi-producer, multi-consumer, relaxed and push_unsafe paths (conqueue.h:446-482, 502-557)
  are not modelled, since their line counters are not atomic; nor is the wrap of the 32-bit head and tail, or
  a size whose number of slots exceeds 2^32.
- CLQueue.SpscQueue.Push: after a push that missed a full queue nothing is promised of later calls.
- SpinMutex.ExclusiveExactly: a lock number of 64 or more, whose shift is not defined, is not a step.
- TCQueue.ExecKeepsInv: the writes of uid, task and promise to their queues are one step, and so are the swaps
  of the three queues; the clock is the `timeout` of an event.
- BatchResults.LeaderState.ProcessBatch: the return hook is a parameter; what it may do besides is not modelled.
- ImplicitProducer.ImplicitProducerIndex.LookupThrough: the loads of the index and of its tail are one step, and
  so are the later reads of entries. The list of old indexes is kept only as the entries they share.
- ImplicitProducer.ImplicitProducerIndex.Rollback: a lookup between two of its rounds is covered by
  `BlockIndex.FindsBlock` alone, and a release there not at all.
- ImplicitProducer.ImplicitProducerIndex.NewBlockIndex: the first index is assumed to be allocated, and a larger
  one only while its blocks stay within 2^64 indexes.
- SegAllocator.SegAllocator.PlacementAllocate: the exact-fit branch (seg_allocator.h:51-53) re-reads an erased
  element and is excluded. Addresses are unbounded.
- SegAllocatorReverse: its reflection is one address off, so it leaves the region.
- LRUCache.LRUCache.Put: requires a capacity of at least 1, as the code reads the back of an empty list
  otherwise. Hashing, cached_bind and the tuple hash are not modelled.
- AtomicQueue.ExecKeepsInv: the raw push and pop, where the tail may pass the head, the single-producer
  variants, and copying, moving and swapping are not modelled.
- queue-bench/rte_ring.h: its head and tail protocol repeats ConQueue's, and its dequeue indexes by another
  rule than its enqueue.
- The rest of moodycamel.h (thread-id hash, tokens, exception paths of the constructors, explicit bulk enqueue,
  moves and swaps), the thread pool, the statistics, logging, parsing and benchmark files.
