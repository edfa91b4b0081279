# maplang: proofs about packet dispatch, its queue and its containers

maplang sends packets along the edges of a graph whose nodes run on several threads. Threads hand packets over through a
lock-free queue and its blocking wrapper; nodes keep state in byte streams, routers, pools and accumulators. This project
models that code in Dafny and proves what callers rely on.

| file | what it models |
|---|---|
| `FreeList.dfy` | the reference-counted lock-free free list |
| `ImplicitQueue.dfy` | the counters by which an enqueuer and any number of dequeuers share one producer's queue |
| `BlockLifecycle.dfy` | the memory blocks behind those counters: taken, written, read, counted and given back |
| `BlockIndex.dfy` | the circular index from block base to block, and its doubling |
| `IndexLookup.dfy` | lookups in that index, access by access, while it is inserted into, rewound and doubled |
| `ProducerHash.dfy` | the chain of hash tables from thread to producer |
| `LightweightSemaphore.dfy`, `BlockingQueue.dfy` | the semaphore and the queue that waits on it |
| `Dispatch.dfy`, `Graph.dfy` | delivery of pushed packets along edges, and the edges themselves |
| `FlatBytes.dfy`, `MemoryStream.dfy` | byte strings, and the list of buffers that must behave as one |
| `HttpRequestExtractor.dfy` | requests found in a connection's bytes |
| `ContextRouting.dfy` | one instance per key |
| `Pools.dfy`, `RingStream.dfy`, `BufferAccumulator.dfy` | recycled buffers and objects, the ring buffer, accumulated buffers |
| `Totals.dfy`, `Modular.dfy` | sums over threads; remainders and powers of two |

`dafny verify dfyconfig.toml` checks everything.

## How the code is modelled

Concurrent code is a state machine over values. A state holds the shared words and, per thread, the next access the thread
will make together with the locals it still needs. A step is one atomic access (or kernel call) of one thread, so a run is
any sequentially consistent interleaving of any number of threads; loops, failed compare-and-swaps, spurious failures and
timeouts are steps like any other. `StepInv` shows that every step of every thread keeps an invariant, `RunInv` that it
holds in every state of every run, and the theorems are about all runs. Components called auxiliary are never read by a
step that models code: they record history (who owns a block, what was enqueued) so that a theorem can speak of it.
`BlockLifecycle` and `BlockingQueue` are composed of the state machines they build on: their steps include the steps of
`ImplicitQueue` and `LightweightSemaphore`, and the invariants of those are part of theirs. `BlockLifecycle` finds a block
in the index in one step; `IndexLookups` takes that step apart and proves that every interleaving of its loads finds the
same block.

Sequential code is classes and arrays with the source's fields, loops and branches. Each method says what the new state is
in terms of a value (the bytes of a stream, the contents of a ring, the states of a router's instances), and the lemmas
are about those values. Helpers exist where a method was cut into rounds of its loop, and a visitor passed to
`visitBuffers` is a loop over the slices it would be called with.

Words of `size_t`, `index_t` and the 32-bit reference word wrap where the code lets them. An exception is `None` (or an
outcome of its own) of the method that throws.

Where the code differs from its comments or from what callers might expect, the model follows the code and the difference
is a theorem:

- `get_block_index_index_for_index` (include/maplang/concurrentqueue.h:2941-2944) says that division keeps a negative
  offset negative. `BLOCK_SIZE` is unsigned, so the division is unsigned too. The masked position is right all the same,
  because every capacity divides the number of blocks a word can count (`BlockIndices.UnsignedDistance`).
- `split` with `maxTokens` 0 does not bound the tokens: `maxTokens - 1` wraps (src/MemoryStream.cpp:307). The bound holds
  exactly for positive values (`FlatBytes.WithinLimitIffPositive`).
- Splitting a joined list gives the list back exactly for separators without a proper border
  (`FlatBytes.RoundTripsIffBorderless`).
- A request whose last header line is Content-Length is answered with errors only, because its value is a string and is
  read as an integer (src/nodes/HttpRequestExtractor.cpp:96-101); otherwise every connection with a blank line gives its
  one New Request (`HttpRequestExtractors.OneRequestIffNoContentLength`).
- A `dequeue_bulk` whose ticket is covered in part claims that part wherever `headIndex` is by then, so its claim need
  not end at the tail it compared with (`ImplicitQueue.PartMayEndEarlier`); `ImplicitQueue.ShortOnlyIfDrawn` says
  exactly when it does.
- `Peek` sizes its chunks by the space after the start of the contents even when it reads elsewhere
  (include/maplang/RingStream-inl.h:49); it still returns the right bytes.
- Exactly-once delivery does not need thread groups to run on different threads: `Dispatch` allows groups to share one.

## Model

| member | source | states |
|---|---|---|
| `FreeList.StepInv` | include/maplang/concurrentqueue.h:1438-1517 | every access of `add`, `try_get` and `add_knowing_refcount_is_zero` by any thread keeps each node's reference word, place and the chain of next pointers consistent |
| `FreeList.RunInv` | include/maplang/concurrentqueue.h:1438-1517 | that consistency holds in every state of every interleaving |
| `FreeList.RunGoesOn` | include/maplang/concurrentqueue.h:1438-1517 | every step enabled in the last state of a run carries the run on |
| `FreeList.HandedOutOncePerAdd` | include/maplang/concurrentqueue.h:1469-1476 | between two times a node is handed out, somebody has added it |
| `FreeList.TakenAlone` | include/maplang/concurrentqueue.h:1469-1476 | a node about to be handed out is off the list, its should-be-on-freelist bit is clear, and no other thread hands it out: the assertion in `try_get` never fails |
| `FreeList.NeverLost` | include/maplang/concurrentqueue.h:1438-1517 | every added node is on the list exactly once, with a client, or owed to the list by a thread still bound to deal with it |
| `FreeList.QuietState` | include/maplang/concurrentqueue.h:1438-1517 | with no call in flight the list holds exactly the nodes added and not handed out, with reference words 1, and 0 for all others |
| `FreeList.OnlyHolderFreeNextChanges` | include/maplang/concurrentqueue.h:1505-1507 | a step changes a next pointer only if no thread holds a counted reference to the node |
| `FreeList.NextStable` | include/maplang/concurrentqueue.h:1466-1468 | from any state of a run to any later one, a node's next pointer stays the same as long as counted references to the node are held throughout |
| `FreeList.SwingRemovesFirst` | include/maplang/concurrentqueue.h:1469 | the head compare-and-swap is safe from ABA: if it succeeds it removes the first node and keeps the rest |
| `FreeList.AloneTryGet` | include/maplang/concurrentqueue.h:1452-1489 | undisturbed, `try_get` takes the first node after five accesses and leaves its reference word 0 |
| `FreeList.AloneAdd` | include/maplang/concurrentqueue.h:1438-1450 | undisturbed, `add` puts the node in front of the list |
| `FreeList.NothingOnlyIfEmpty` | include/maplang/concurrentqueue.h:1452-1489 | however many threads take and add nodes meanwhile, `try_get` returns nothing only if the list was empty at one of the call's own accesses |
| `FreeList.EndsAlone` | include/maplang/concurrentqueue.h:1438-1517 | from every state of a run, whatever the other threads have left half done, a call that runs alone is over after at most 27 accesses |
| `ImplicitQueue.CircularLessThanExact` | include/maplang/concurrentqueue.h:469-480 | on wrapped counters less than half the range apart, `circular_less_than` orders them as the unwrapped ones |
| `ImplicitQueue.StepInv` | include/maplang/concurrentqueue.h:2535-2604 | every access of every concurrent dequeue keeps the ticket accounting: an overcommit value read is bounded by the failures among smaller tickets |
| `ImplicitQueue.RunInv` | include/maplang/concurrentqueue.h:2764-2864 | the accounting holds in every run of single and bulk dequeues |
| `ImplicitQueue.GrantedWithinTail` | include/maplang/concurrentqueue.h:2544-2547 | the amounts granted to the first tickets never exceed the elements enqueued |
| `ImplicitQueue.HeadAtMostTail` | include/maplang/concurrentqueue.h:2541-2547 | the head counter stays at or below the tail counter even after all granted claims |
| `ImplicitQueue.HeadWithinTail` | include/maplang/concurrentqueue.h:2541-2547 | so `headIndex <= tailIndex` in every state of every run |
| `ImplicitQueue.ClaimsApart` | include/maplang/concurrentqueue.h:2547 | no index is claimed twice and later claims are of later indices |
| `ImplicitQueue.DeliveredInOrder` | include/maplang/concurrentqueue.h:2764-2864 | the claims together are the first `headIndex` elements, each once, in the order they were enqueued |
| `ImplicitQueue.LoneDequeueEmpty` | include/maplang/concurrentqueue.h:2539-2541 | with nothing in flight, a dequeue on head equal to tail gives up and changes no counter |
| `ImplicitQueue.LoneDequeueClaims` | include/maplang/concurrentqueue.h:2764-2780 | with nothing in flight and elements present, a dequeue claims the smaller of `max` and the number present, from `headIndex` on |
| `ImplicitQueue.ShortOnlyIfDrawn` | include/maplang/concurrentqueue.h:2764-2784 | among any number of concurrent dequeues, one that fails or gets fewer elements than it asked for leaves nothing that others have not drawn: the tickets drawn before, less the overcommit it read, and what it gets cover everything enqueued at its load of the tail, exactly so if it gets anything; its claim ends at that tail if and only if it starts at its ticket's place |
| `ImplicitQueue.PartMayEndEarlier` | include/maplang/concurrentqueue.h:2770-2786 | a run in which a claim for part of a ticket ends before the tail its call saw, because headIndex is advanced in another order than tickets are drawn |
| `BlockLifecycle.StepInv` | include/maplang/concurrentqueue.h:2476-2532 | every access of the enqueuer and of every dequeuer keeps blocks, index entries, counters and slots consistent |
| `BlockLifecycle.RunInv` | include/maplang/concurrentqueue.h:2786-2854 | the consistency holds in every run |
| `BlockLifecycle.RunGoesOn` | include/maplang/concurrentqueue.h:2476-2604 | there is a run from any number of blocks and dequeuers, and every step enabled in the last state of a run carries the run on |
| `BlockLifecycle.TailBlockInUse` | include/maplang/concurrentqueue.h:2529 | the enqueuer only writes into a block that is in use as the block of `tailIndex` |
| `BlockLifecycle.MovesOutRight` | include/maplang/concurrentqueue.h:2549-2582 | the slot a dequeuer reads still holds the element enqueued at its index |
| `BlockLifecycle.FreedOncePerUse` | include/maplang/concurrentqueue.h:2584-2592 | a block goes to the free list once per use: between two returns it was requisitioned |
| `BlockLifecycle.FreedWhenEmpty` | include/maplang/concurrentqueue.h:1594-1613 | when a block leaves the index on its way to the free list, every one of its slots is empty, no dequeuer has indices in it left and both counters are past it |
| `BlockLifecycle.ClaimedIsThere` | include/maplang/concurrentqueue.h:2549-2555 | an element that is claimed and not moved out yet is in its slot, and its block in the index |
| `BlockLifecycle.TakesWhatWasEnqueued` | include/maplang/concurrentqueue.h:2786-2854 | what a dequeuer moves out is, in order, exactly the range it claimed |
| `BlockLifecycle.NoBlockLeaks` | include/maplang/concurrentqueue.h:2842-2852 | once every dequeuer has left, only blocks with unclaimed elements or unwritten slots are in use |
| `BlockLifecycle.CallsEnd` | include/maplang/concurrentqueue.h:2476-2604 | every access of a dequeuer brings it nearer to the end of its claim, every access of the enqueuer brings its element nearer to being published, and nobody else's access holds either up |
| `BlockIndices.UnsignedDistance` | include/maplang/concurrentqueue.h:2943-2944 | a distance of j blocks back, divided as an unsigned word, lands j slots back on the circle for every capacity |
| `BlockIndices.BlockIndex.constructor` | include/maplang/concurrentqueue.h:2408-2414 | a new index has 32 free slots and the tail before slot 0 |
| `BlockIndices.BlockIndex.Insert` | include/maplang/concurrentqueue.h:2886-2916 | the new entry carries the block's base and becomes the tail; the oldest entry is dropped only if its block is gone, otherwise the index doubles or the call fails with nothing changed |
| `BlockIndices.BlockIndex.NewBlockIndex` | include/maplang/concurrentqueue.h:2949-2991 | rotate-and-copy keeps every entry in use in its order, in an index of twice the size |
| `BlockIndices.BlockIndex.Rewind` | include/maplang/concurrentqueue.h:2918-2922 | taking the last insertion back leaves the earlier entries and the next base as they were before it |
| `BlockIndices.BlockIndex.Lookup` | include/maplang/concurrentqueue.h:2924-2947 | for every entry in use, so for every live block, looking up an index of its block returns that entry, across position and index wrap-around |
| `IndexLookups.StepInv` | include/maplang/concurrentqueue.h:2886-2991 | every load and store of an insertion, a rewind, a doubling and a lookup keeps keys and slots of all headers, old and current, in step and every live block's entry findable |
| `IndexLookups.RunInv` | include/maplang/concurrentqueue.h:2886-2991 | this holds in every run |
| `IndexLookups.RunGoesOn` | include/maplang/concurrentqueue.h:2886-2991 | there is a run from every index as constructed, and every enabled access carries a run on |
| `IndexLookups.LookupRight` | include/maplang/concurrentqueue.h:2931-2947 | however the loads of a lookup are interleaved with insertions, through a replaced header too, and for every further block of a bulk dequeue, the entry found has the key sought and a block: the assertion at its end never fails |
| `IndexLookups.TailHasKey` | include/maplang/concurrentqueue.h:2938-2940 | the tail loaded leads to an entry with a key: the assertion that it is valid never fails |
| `IndexLookups.KeyStoreSpares` | include/maplang/concurrentqueue.h:2893-2898 | the entry an insertion is about to overwrite is that of no block still in the index |
| `IndexLookups.SlotInOlder` | include/maplang/concurrentqueue.h:2966-2972 | keys that share a slot of the current header share one in every older header, since capacities divide each other |
| `IndexLookups.LookupEnds` | include/maplang/concurrentqueue.h:2931-2947 | a lookup takes three loads, and one step for every further block, whatever the enqueuer and other dequeuers do in between |
| `ProducerHash.StepInv` | include/maplang/concurrentqueue.h:3374-3524 | every access of every thread keeps keys unique per table, values right, probe sequences unbroken and numbers within the load limit |
| `ProducerHash.RunInv` | include/maplang/concurrentqueue.h:3374-3524 | this holds in every run |
| `ProducerHash.RunGoesOn` | include/maplang/concurrentqueue.h:3374-3524 | there is a run for any hash values, and every enabled step carries a run on |
| `ProducerHash.SearchMisses` | include/maplang/concurrentqueue.h:3396-3436 | an empty slot after passed ones shows that the id is not in the table |
| `ProducerHash.EmptySlot` | include/maplang/concurrentqueue.h:3478-3481 | fewer than three quarters of every table's slots are taken, so each keeps an empty one |
| `ProducerHash.ProbesEnd` | include/maplang/concurrentqueue.h:3398 | every probe loop has looked at fewer slots than its table has |
| `ProducerHash.OwnProducer` | include/maplang/concurrentqueue.h:3402-3430 | a call returns the thread's own producer, no two threads have the same, and a key is at most once in a table |
| `ProducerHash.RunKeepsProducer` | include/maplang/concurrentqueue.h:3482-3516 | a thread's producer never changes |
| `ProducerHash.SameProducerForever` | include/maplang/concurrentqueue.h:3374-3524 | two calls anywhere in a run return the same producer exactly if the same thread made them |
| `ProducerHash.RunPowers` | include/maplang/concurrentqueue.h:3449-3452 | every capacity is a power of two, so the mask is a remainder |
| `ProducerHash.ReturnsAlone` | include/maplang/concurrentqueue.h:3439-3516 | however far the other threads have got, as long as none of them holds the resize flag, a call that runs alone returns, with the thread's own producer |
| `LightweightSemaphore.StepInv` | include/maplang/lightweightsemaphore.h:241-387 | every access, kernel call, spurious failure and timeout keeps the permit and waiter counts |
| `LightweightSemaphore.RunInv` | include/maplang/lightweightsemaphore.h:241-387 | the counts hold in every run |
| `LightweightSemaphore.PermitsConserved` | include/maplang/lightweightsemaphore.h:241-387 | initial plus signalled permits equal those returned, in hand, in the count, in the kernel and about to be posted |
| `LightweightSemaphore.WaitersCounted` | include/maplang/lightweightsemaphore.h:257-321 | unresolved waiters equal the negative part of the count plus the kernel's permits, posted or coming |
| `LightweightSemaphore.RepairHasPermit` | include/maplang/lightweightsemaphore.h:264-279 | a timed-out waiter that sees a count of at least 0 has a kernel permit or one coming |
| `LightweightSemaphore.QuietState` | include/maplang/lightweightsemaphore.h:380-387 | with no call in flight every permit not returned is in the count and the kernel holds none |
| `LightweightSemaphore.StuckOnlyWithoutPermits` | include/maplang/lightweightsemaphore.h:259-263 | threads stay blocked for good only when every permit has been handed out |
| `LightweightSemaphore.ReturnedAmount` | include/maplang/lightweightsemaphore.h:282-321 | a call returns at most `max` permits, and at least one if it waits without limit |
| `LightweightSemaphore.LoneAcquire` | include/maplang/lightweightsemaphore.h:350-372 | undisturbed, a call takes the smaller of `max` and the count without entering the kernel |
| `LightweightSemaphore.FewerOnlyIfShort` | include/maplang/lightweightsemaphore.h:282-372 | whatever other threads take and signal, a call settles for fewer than `max` permits only if the last count it read or swapped was not positive, or was one it took whole |
| `LightweightSemaphore.EndsAlone` | include/maplang/lightweightsemaphore.h:241-372 | as long as nobody else is about to post, a call that runs alone returns, or stays in the kernel with no permit there and a negative count |
| `BlockingQueue.StepInv` | include/maplang/blockingconcurrentqueue.h:123-130 | every step of enqueuers, takers and the semaphore keeps elements and permits in balance |
| `BlockingQueue.RunInv` | include/maplang/blockingconcurrentqueue.h:123-130 | the balance holds in every run |
| `BlockingQueue.RunGoesOn` | include/maplang/blockingconcurrentqueue.h:123-130 | every step enabled in the last state of a run carries the run on |
| `BlockingQueue.PermitsBacked` | include/maplang/blockingconcurrentqueue.h:294-303 | permits available or granted and not used are each backed by an element; the rest belong to enqueuers about to signal |
| `BlockingQueue.TakerHasElements` | include/maplang/blockingconcurrentqueue.h:327-367 | a thread spinning on the inner queue always has the elements it still needs left there |
| `BlockingQueue.BlockedOnlyWhenEmpty` | include/maplang/blockingconcurrentqueue.h:447-455 | if all waiting threads are blocked with no permit left, the queue is empty |
| `Dispatch.DecisionsComplement` | src/DataGraph.cpp:180-191 | for an edge to the scanning thread, exactly one of direct push and service from the queue applies |
| `Dispatch.RescanCount` | src/DataGraph.cpp:294-321 | the rescan of all channels sends along each owed edge of the packet's channel once and along no other |
| `Dispatch.StepInv` | src/DataGraph.cpp:135-218 | every step of every pushing thread and every loop keeps the delivery accounting |
| `Dispatch.RunInv` | src/DataGraph.cpp:269-327 | the accounting holds in every run |
| `Dispatch.RunGoesOn` | src/DataGraph.cpp:135-327 | every graph has a run, and every enabled step carries a run on |
| `Dispatch.NoPacketStranded` | src/DataGraph.cpp:215-286 | a queued packet has a wake-up pending, a loop still going to look, or a thread about to wake it |
| `Dispatch.AtMostOnce` | src/DataGraph.cpp:172-217 | no packet is ever delivered twice along an edge or along an edge of another channel |
| `Dispatch.ExactlyOnce` | src/DataGraph.cpp:172-325 | once everything has settled, queues are empty and every packet has been delivered exactly once along each edge of its channel |
| `Dispatch.FindsChannel` | src/DataGraph.cpp:166-172 | the edges of a channel are those listed for it, and an unconnected channel has none |
| `Dispatch.HandledOnOwnThread` | src/DataGraph.cpp:172-324 | whenever a packet is delivered along an edge, the acting thread runs the loop of the target's own group: the pusher itself if it is that thread and the edge does not always queue, a loop on that thread otherwise; a packet sent to a node is handled by the loop of the node's group |
| `Dispatch.HandledInOrder` | src/DataGraph.cpp:206-327 | packets that one thread queues to one group are handled in the order queued: those handled, then those pending, are those queued |
| `Dispatch.StepSettles` | src/DataGraph.cpp:135-327 | every move other than a new push leaves less work, whichever threads and loops move in whatever order |
| `Dispatch.Settles` | src/DataGraph.cpp:135-327 | every run can be carried on, without a new push, to a state in which every push is finished and every loop sleeps |
| `Graphs.Graph.CreateGraphNode` | src/Graph.cpp:134-155 | a name in use is refused; a new node has no edges and changes no other |
| `Graphs.Graph.Connect` | src/Graph.cpp:56-94 | adds the edge at the end of its channel unless it is there already, changes no other channel, and keeps targets of a channel distinct and back edges equal to the sources of forward edges |
| `FlatBytes.FirstMatchLeast` | src/MemoryStream.cpp:204-238 | the specified position is a match and nothing before it is |
| `FlatBytes.JoinFragments` | src/MemoryStream.cpp:299-324 | joining the fragments with the separator gives the string back, with any limit |
| `FlatBytes.WithinLimitIffPositive` | src/MemoryStream.cpp:307-308 | there are at most `maxTokens` fragments exactly if `maxTokens` is positive |
| `FlatBytes.FragmentsSeparatorFree` | src/MemoryStream.cpp:305-323 | no fragment contains the separator, except the last when the limit was reached |
| `FlatBytes.FragmentsBelowLimit` | src/MemoryStream.cpp:305-323 | a limit that is not exceeded changes nothing |
| `FlatBytes.FragmentsJoin` | src/MemoryStream.cpp:299-324 | splitting a joined non-empty list of separator-free fragments gives the list, for a separator without proper border |
| `FlatBytes.RoundTripsIffBorderless` | src/MemoryStream.cpp:299-324 | and for no other separator |
| `FlatBytes.BigEndianRoundTrip` | include/maplang/MemoryStream.h:176-179 | byte strings of a width and values below 256 to that width determine each other |
| `FlatBytes.TrimsToOne` | src/MemoryStream.cpp:453-468 | there is only one way to cut the four kinds of white space off both ends until none is left there |
| `MemoryStreams.Buffer.Slice` | src/Buffer.cpp:18-28 | exactly the bytes of the range that exist, for every offset and length |
| `MemoryStreams.MemoryStream.Append` | src/MemoryStream.cpp:28-39 | the flat string grows by the buffer; a buffer with a length and no data is refused |
| `MemoryStreams.MemoryStream.Clear` | src/MemoryStream.cpp:41-44 | the stream is empty |
| `MemoryStreams.MemoryStream.FindIndex` | src/MemoryStream.cpp:470-491 | the buffer and offset of a byte, or an exception exactly past the end |
| `MemoryStreams.MemoryStream.ByteAt` | src/MemoryStream.cpp:58-64 | the byte of the flat string |
| `MemoryStreams.MemoryStream.VisitBuffers` | src/MemoryStream.cpp:408-451 | the non-empty slices concatenate to the range of the flat string |
| `MemoryStreams.MemoryStream.FirstIndexOfByte` | src/MemoryStream.cpp:66-106 | the least position of the byte in the range of the flat string |
| `MemoryStreams.MemoryStream.FirstIndexOf` | src/MemoryStream.cpp:204-238 | the least position in the range at which the pattern occurs whole; the search ends |
| `MemoryStreams.MemoryStream.Equals` | src/MemoryStream.cpp:265-283 | whether the bytes occur at the offset; an exception exactly if the end offset wraps into the stream |
| `MemoryStreams.MemoryStream.SubStream` | src/MemoryStream.cpp:379-392 | a new stream with the range of the flat string |
| `MemoryStreams.MemoryStream.AsString` | src/MemoryStream.cpp:46-56 | the flat string |
| `MemoryStreams.MemoryStream.Read` | src/MemoryStream.cpp:506-543 | copies exactly the bytes that exist, are wanted and fit, and leaves the rest of the destination alone |
| `MemoryStreams.MemoryStream.ReadBigEndian` | include/maplang/MemoryStream.h:162-182 | the base-256 value of the bytes at the offset; an exception exactly if the end offset, which may wrap, is past the end |
| `MemoryStreams.MemoryStream.FirstIndexNotOfAnyInSet` | src/MemoryStream.cpp:181-202 | the first byte of the range outside the set |
| `MemoryStreams.MemoryStream.LastIndexNotOfAnyInSet` | src/MemoryStream.cpp:133-156 | the last byte of the range outside the set |
| `MemoryStreams.MemoryStream.Trim` | src/MemoryStream.cpp:453-468 | a new stream without leading and trailing white space, nothing else cut off |
| `MemoryStreams.MemoryStream.TrimsWhiteSpace` | src/MemoryStream.cpp:453-468 | byte by byte: trimming leaves exactly what lies between leading and trailing bytes 32, 13, 10 and 9 |
| `MemoryStreams.MemoryStream.Split` | src/MemoryStream.cpp:299-324 | new streams holding exactly the fragments of the flat string; with an empty separator, empty streams up to the limit and then the whole string |
| `HttpRequestExtractors.ParsesIffNoContentLength` | src/nodes/HttpRequestExtractor.cpp:91-101 | a header block is refused exactly if its last line below the request line is a Content-Length line; only the last line's header is kept |
| `HttpRequestExtractors.ContentLengthRefused` | src/nodes/HttpRequestExtractor.cpp:96-101 | any request line followed by such a line is refused |
| `HttpRequestExtractors.ContentLengthIsSuchALine` | src/nodes/HttpRequestExtractor.cpp:96-101 | the bare header name is such a line, so refused requests exist |
| `HttpRequestExtractors.BodyInLastBuffer` | src/nodes/HttpRequestExtractor.cpp:110-116 | the body offset in the last buffer is never negative and the slice from it is the body so far |
| `HttpRequestExtractors.HttpRequestExtractor.HandlePacket` | src/nodes/HttpRequestExtractor.cpp:44-129 | state and pushed packets follow from the buffered bytes and the packet's, whole, and the buffer never holds an accepted header block between packets |
| `HttpRequestExtractors.HttpRequestExtractor.EndOfRequest` | src/nodes/HttpRequestExtractor.cpp:233-243 | destruction pushes Request Ended exactly if the headers were sent |
| `HttpRequestExtractors.HttpRequestExtractor.CreateHeaderPacket` | src/nodes/HttpRequestExtractor.cpp:131-176 | method, path, version and headers as the header block specifies them |
| `HttpRequestExtractors.HttpRequestExtractor.ParseHeaders` | src/nodes/HttpRequestExtractor.cpp:204-231 | lower-case trimmed keys and trimmed values, a later line overriding an earlier one |
| `HttpRequestExtractors.HeaderOfLine` | src/nodes/HttpRequestExtractor.cpp:213-226 | of a line `name:value`, the key is the trimmed name, its bytes 65 to 90 raised by 32, and the value is all that follows the first colon, trimmed |
| `HttpRequestExtractors.HeaderWithoutColon` | src/nodes/HttpRequestExtractor.cpp:213-226 | a line without a colon is all name, and its value is empty |
| `HttpRequestExtractors.RequestOfParts` | src/nodes/HttpRequestExtractor.cpp:131-168 | a block of parts joined by blanks and lines joined by CR LF has the parts as method, path and version, as far as there are, and the last line's header |
| `HttpRequestExtractors.RequestSpelledOut` | src/nodes/HttpRequestExtractor.cpp:131-231 | byte for byte, `method path version`, CR LF and `name:value` gives exactly that method, path and version and exactly that header |
| `HttpRequestExtractors.ConnectionSends` | src/nodes/HttpRequestExtractor.cpp:40-129 | for every cutting of a connection's bytes: nothing without a blank line; errors only if the block is refused; else one New Request for the bytes before the first blank line (section 2.1 of RFC 9112), body packets that concatenate to the bytes after it, one Request Ended |
| `HttpRequestExtractors.CuttingIrrelevant` | src/nodes/HttpRequestExtractor.cpp:79-123 | two cuttings of the same bytes give the same requests and the same body |
| `HttpRequestExtractors.OneRequestIffNoContentLength` | src/nodes/HttpRequestExtractor.cpp:91-106 | a connection with a blank line gives its one New Request exactly if its last header line is not Content-Length |
| `HttpRequestExtractors.Serve` | src/nodes/HttpRequestExtractor.cpp:33-129 | an extractor from construction to destruction sends what the specification of connections says |
| `ContextRouting.SingleNodeRouter.AddNode` | src/nodes/ContextualNode.cpp:148-160 | both maps after the call, for any key and node; they stay inverse to each other exactly if neither was in use for something else |
| `ContextRouting.SingleNodeRouter.HandlePacket` | src/nodes/ContextualNode.cpp:162-183 | the instance of the packet's key, made if there is none, reacts; no other changes; a missing key throws and changes nothing |
| `ContextRouting.SingleNodeRouter.RemoveNode` | src/nodes/ContextualNode.cpp:190-203 | removes the key from both maps and says whether it was there |
| `ContextRouting.HandleRemoval` | src/nodes/ContextualNode.cpp:289-306 | a removal is announced exactly if the key had an instance |
| `ContextRouting.Demultiplexes` | src/nodes/ContextualNode.cpp:162-203 | for every interleaving, key k's responses and final instance are those of k's own events on one instance, restarted at each removal |
| `ContextRouting.Serve` | src/nodes/ContextualNode.cpp:162-306 | a router over a whole history answers as specified |
| `ContextRouting.CohesiveGroupRouter.CreateNewInstance` | src/nodes/ContextualNode.cpp:388-425 | every sub-router gets an instance for the key, so that all hold the same keys; no state changes and no instance is replaced |
| `ContextRouting.CohesiveGroupRouter.HandlePacket` | src/nodes/ContextualNode.cpp:162-183 | the interface's instance for the key reacts, made together with the other interfaces' if need be; every other state of every interface and every instance stays |
| `ContextRouting.GroupDemultiplexes` | src/nodes/ContextualNode.cpp:162-183 | in a group, each interface answers and keeps its states as a router of its own would that got its packets alone |
| `ContextRouting.ServeGroup` | src/nodes/ContextualNode.cpp:162-425 | a group over a whole history answers as specified |
| `Pools.BlockingBufferPool.Get` | src/BlockingBufferPool.cpp:52-93 | a lease long enough on an item nobody else holds; a bigger size starts a new generation; waits only when all the generation may have is outstanding |
| `Pools.BlockingBufferPool.ServeWaiting` | src/BlockingBufferPool.cpp:69-90 | a get that waits goes on when a lease of its generation is dropped, with that item |
| `Pools.BlockingBufferPool.Release` | src/BlockingBufferPool.cpp:78-90 | the item goes back into its own generation's queue, or nowhere if that is gone |
| `Pools.BlockingObjectPool.SetAllocator` | include/maplang/BlockingObjectPool.h:55-69 | a new generation with nothing allocated; leases so far become older ones |
| `Pools.BlockingObjectPool.Get` | include/maplang/BlockingObjectPool.h:71-100 | as for buffers; without an allocator an exception exactly if it would have to allocate |
| `Pools.BlockingObjectPool.ServeWaiting` | include/maplang/BlockingObjectPool.h:82-97 | as for buffers |
| `Pools.BlockingObjectPool.Release` | include/maplang/BlockingObjectPool.h:87-97 | as for buffers |
| `Pools.BufferPool.Get` | src/BufferPool.cpp:42-79 | a lease on a recycled item, or on a new one only when everything made is outstanding |
| `Pools.BufferPool.Release` | src/BufferPool.cpp:66-76 | as for the blocking pool |
| `Pools.LeaseQueued` | src/BlockingBufferPool.cpp:68-70 | leasing a queued item keeps storage unshared and queued plus outstanding constant |
| `Pools.PutBack` | src/BlockingBufferPool.cpp:81-90 | so does putting it back |
| `RingStreams.RingStream.Peek` | include/maplang/RingStream-inl.h:41-65 | ends, stays in bounds and copies the first bytes of the contents around the end of the buffer |
| `RingStreams.RingStream.Read` | include/maplang/RingStream-inl.h:33-39 | hands out the first bytes and leaves exactly the rest |
| `RingStreams.RingStream.Append` | include/maplang/RingStream-inl.h:89-104 | the copy loop appends exactly its input whenever it fits |
| `BufferAccumulator.Accumulator.AppendBuffers` | src/nodes/BufferAccumulatorNode.cpp:64-99 | each slot grows by the packet's buffer for it, new slots as needed, used bytes within storage that is never shared |
| `BufferAccumulator.Accumulator.Send` | src/nodes/BufferAccumulatorNode.cpp:101-121 | fresh copies of exactly the slots' contents |
| `BufferAccumulator.Accumulator.Clear` | src/nodes/BufferAccumulatorNode.cpp:123-129 | every slot is empty and keeps its storage |
| `BufferAccumulator.SlotsHoldHistory` | src/nodes/BufferAccumulatorNode.cpp:64-129 | after any sequence of packets, slot i is the concatenation of the i-th buffers since the last clear, and there are as many slots as the most buffers ever appended |
| `BufferAccumulator.Serve` | src/nodes/BufferAccumulatorNode.cpp:64-129 | every send of a history sends what the history says |

## Left out

- Update in place of the concurrent structures: `FreeList`, `ImplicitQueue`, `BlockLifecycle`, `ProducerHash`,
  `IndexLookups`, `LightweightSemaphore`, `BlockingQueue` and `Dispatch` step between values, one access at a time,
  because their point is interleaving; aliasing between threads appears as the shared components of the state.
- Weak memory orderings: every run is sequentially consistent.
- Allocation failure, throwing constructors and throwing handlers in the queue and in dispatch.
- Explicit producers, tokens, `enqueue_bulk`, queue move and swap: maplang uses the implicit producer path only.
- FreeList.StepInv: fewer than 2^31 threads, so that the reference count stays within its 31 bits.
- ImplicitQueue.StepInv: counters are unbounded; `CircularLessThanExact` says when the wrapped comparison agrees.
- BlockLifecycle.StepInv: an insertion into the block index and a lookup are one step each; `IndexLookups` takes them apart.
- BlockIndices.BlockIndex.Lookup: a call nobody interferes with, in an index of fewer than 2^59 slots; interleaved lookups,
  also through older headers, are the subject of `IndexLookups`.
- IndexLookups.StepInv: block numbers do not wrap. What its guards take from `BlockLifecycle` (a block looked up is in the
  index, and whoever takes one out is the last to use it) is proved there by `ClaimedIsThere` and `FreedWhenEmpty`; the two
  machines are not composed into one.
- ProducerHash.StepInv: no thread exits and no producer is recycled; that code is compiled out.
- LightweightSemaphore.StepInv: the narrowing of the amount posted to an int and overflow of the count are not modelled.
- The kernel semaphore and `uv_async` are a counter and a pending flag; libuv, sockets, loops and thread start-up are
  left out.
- Merging of the parameters a node last received into what it pushes, and the pushers and contexts a router hands to its
  instances.
- Changing the graph while packets are in flight, and `Graph::disconnect`, which drops a whole channel and back edges that
  may still be needed.
- MemoryStreams.MemoryStream.Split: streams are shorter than the word's largest value by the length of what is searched for.
- Byte streams' `lastIndexOfAnyInSet`, `firstIndexOfAnyInSet` and the string overloads: the same loops again.
- HTTP Content-Length accounting: `mBodyLength` is never assigned a length, so the branches that compare with it, and the
  count of body bytes only they read, cannot matter.
- `CohesiveGroupRouter::removeNode`, which looks the key up among interface names.
- ContextRouting.CohesiveGroupRouter.HandlePacket: groups created for a key have the interfaces of the template group.
- Pools.BlockingBufferPool.Get: calls on one pool do not overlap; a get that has to wait ends as an outcome, and
  `ServeWaiting` says how it goes on. The queue it waits on is `BlockingQueue`'s subject.
- Pools.BlockingObjectPool.Get: the same. Without a cap and before any allocator was set there is no queue to wait on.
- `RingStream::ResizeBuffer`, `Skip` and the growth test of `Write`, which do not keep the contents.
- `PacketReader` and `PacketWriter`, key-value stores, `BlockOnEmptyConcurrentQueue`, graph building from DOT and JSON, DOT
  export, and single-branch nodes.
