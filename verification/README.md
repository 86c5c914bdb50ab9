# Verified models of the TBB concurrent containers and the msgpack-c codec

The repository carries two libraries with intricate invariants. This project models their
hard parts in Dafny and proves what they promise:

* **concurrent_hash_map** as a step system (`HashMap*.dfy` over `BucketTree.dfy`): any number
  of clients run find, insert, erase and exclude, interleaved at shared reads, lock operations,
  compare-and-swaps and stores, with stale masks, lazy rehashing and growth. Every run of it is
  a run of an atomic map (`AtomicMap.dfy`): the table is linearizable.
* **concurrent_hash_map used by one thread** (`Serial*.dfy`, `Segments.dfy`): a class that refines a
  plain map, with lazy and whole-table rehashing, copying, comparing, iterators and ranges.
* **concurrent_priority_queue** (`Heap.dfy`, `PriorityQueue*.dfy`): one batch of pushes and pops
  over a half-heapified vector, linearized on an ideal priority queue.
* **aggregator_ext** (`Aggregator*.dfy`): the mailbox protocol, with operations whose addresses
  are used again.
* **ets_base::table_lookup** (`LocalTable*.dfy`): the lock-free table of thread-local elements.
* **concurrent_lru_cache** (`LruCache.dfy`): reference counts, history and eviction.
* **msgpack-c** (`Msg*.dfy`): packer, resumable decoder, streaming unpacker with its counted
  buffers, memory zone.

Every system is modelled in the source's own form: what the source updates in place is a class
or an imperative method proved against a specification function; concurrent protocols are step
systems whose guarantees are proved for every state of every run.

## Assumptions

* The hash code of a key never changes; comparators are strict weak orders.
* Atomic operations are sequentially consistent. A bucket or item mutex is an atomic
  reader/writer lock whose upgrade may release the lock first.
* Two pieces of hash map code that run under a bucket's write lock are single steps: inserting a
  node (the size counter, the new head of the chain, the test of the next segment and the
  compare-and-swap that claims it), and moving one node while a bucket is rehashed.
* Bucket indices of the hash map stay below 2^32: `rehash_bucket` computes its mask with `1u <<`
  (concurrent_hash_map.h, line 655).
* A hash map client stands for one accessor and the operation running on it; a thread with
  several accessors is several clients.
* Integers are unbounded except where the source depends on the width: the 32-bit sizes of the
  decoder callbacks, the 32-bit `trail` of an ext, the 64-bit wrap-around tests of the doubling
  loops, two's complement and big-endian fields.
* `sizeof(msgpack_object)` is 24, `sizeof(msgpack_object_kv)` is 48, a pointer has 8 bytes, the
  buffer counter 4. No block of memory is larger than 2^63 - 1 bytes. `malloc` answers with
  word-aligned memory that is not in use.
* Floats are bit patterns. Fresh memory reads as zero; nothing proved depends on it.
* Where the source allocates, the answer of the allocator is a parameter (`allocates`, `pushes`,
  `at`), except in the decoder callbacks, whose zone allocations succeed.

Two places where the code differs from its own words: the comment above `my_root` says that each
thread-local array has half the size of its predecessor, but the growth loop may skip sizes, so
the model has only "smaller"; and `internal_copy` is prepared for pending buckets in its fast
path, which is only ever entered with the two embedded buckets.

## Results that need a condition

* `rehash(n)` scans only the last segment. It leaves no bucket pending if and only if
  `SerialRehash.WillComplete` holds of the table before the call: if there are `n` buckets already,
  every pending bucket must have a pending bucket of the last segment with the same nearest
  rehashed ancestor (`SerialRehash.Covered`; this holds when the pending buckets are closed under
  descendants, as find, insert, erase and growth keep them); if the table has to be enlarged, the
  map must not be empty, or nothing may be pending. `SerialMap.HashMap.Rehash` promises this, and
  `SerialRehash.RehashSpec` says exactly which buckets stay pending. `SerialMap.InsertEraseRehash` is
  an input for which some do: insert one entry, erase it, call `rehash(512)`.
* An LRU cache may be given a history of size zero. Giving back the last handle then pops from an
  empty list (`LruCache.NoHistory`), which is not defined. `LruCache.PopsWhatIsThere` and
  `LruCache.Cache.Release` say exactly when giving back a handle is defined: another handle is
  left, or the history may hold at least one entry.
* The codec round trip holds exactly for the objects that are `MsgRoundTrip.Decodable`: container
  nesting at most 32 and sizes within the decoder's 32-bit checks (`MsgRoundTrip.RoundTrip`).

## Model

| member | source | states |
|---|---|---|
| HashMapSafety.StepInv | tbb_concurrent_hash_map/include/tbb/concurrent_hash_map.h:628-681 | every step of find, insert, erase, exclude, lazy rehashing and growth keeps the invariant: each node is in the deepest settled bucket of its path, keys are unique, write locks are exclusive, unlinked nodes have one owner |
| HashMapSafety.RunInv | tbb_concurrent_hash_map/include/tbb/concurrent_hash_map.h:1112-1188 | the invariant holds in every state of every run |
| HashMapLinearizability.Linearizable | tbb_concurrent_hash_map/include/tbb/concurrent_hash_map.h:1112-1188 | every operation that is answered took effect at exactly one step between its call and its answer, with the sequential meaning of find, insert, erase or exclude on the contents and with the answer given |
| HashMapLinearizability.RunIsAtomic | tbb_concurrent_hash_map/include/tbb/concurrent_hash_map.h:1112-1188 | every run, with stale masks, lazy rehashing and growth, is a run of the atomic map |
| HashMapLinearizability.Simulates | tbb_concurrent_hash_map/include/tbb/concurrent_hash_map.h:1112-1274 | every step of the protocol is a silent step, a call, an effect or an answer of the atomic map on the contents of the table |
| AtomicMap.OneEffect | tbb_concurrent_hash_map/include/tbb/concurrent_hash_map.h:1112-1274 | in a run of the atomic map every answer has its call before it and one effect with the same answer in between |
| HashMapLinearizability.AccessorFits | tbb_concurrent_hash_map/include/tbb/concurrent_hash_map.h:1157-1188 | an accessor is handed out on the node that the map has for the requested key |
| HashMapContents.TableStep | tbb_concurrent_hash_map/include/tbb/concurrent_hash_map.h:651-681 | an insertion adds exactly its node, an unlink removes exactly its node, and no other step, lazy rehashing and growth included, changes which nodes the table holds |
| HashMapContents.RunLiving | tbb_concurrent_hash_map/include/tbb/concurrent_hash_map.h:1210-1274 | in every run a living node is in the table or was unlinked by a client that still has to delete it |
| HashMapGuarantees.AbsentIsTrue | tbb_concurrent_hash_map/include/tbb/concurrent_hash_map.h:228-256 | when the mask check lets an operation conclude that its key (or node, for exclude) is absent, no bucket of the table holds it at that moment, and every living node with that key was already unlinked and is owned by the client that is going to delete it |
| HashMapGuarantees.KeysAreUnique | tbb_concurrent_hash_map/include/tbb/concurrent_hash_map.h:1112-1150 | in no reachable state do two nodes of the table have equal keys |
| HashMapGuarantees.DeletionIsSafe | tbb_concurrent_hash_map/include/tbb/concurrent_hash_map.h:1210-1274 | a node being deleted is alive and in no bucket, and nobody but its deleter holds, acquires or is about to use its item lock |
| HashMapGuarantees.DeletedOnce | tbb_concurrent_hash_map/include/tbb/concurrent_hash_map.h:1232-1236 | no node is deleted twice in any run |
| HashMapGuarantees.DeletedExactlyOnce | tbb_concurrent_hash_map/include/tbb/concurrent_hash_map.h:1210-1274 | once the client that unlinked a node has gone on, the node is dead: that client deleted it at one step in between, and no other step of the run deletes it |
| HashMapGuarantees.UnlinkerDeletes | tbb_concurrent_hash_map/include/tbb/concurrent_hash_map.h:1210-1274 | a node is deleted by the client that unlinked it, through erase or exclude, also when two accessors exclude the same node |
| HashMapGuarantees.AccessorsAreAlive | tbb_concurrent_hash_map/include/tbb/concurrent_hash_map.h:1157-1176 | an accessor always refers to a node that has not been deleted |
| HashMapGuarantees.EnabledOnce | tbb_concurrent_hash_map/include/tbb/concurrent_hash_map.h:182-206 | two enabling steps of a run are for different segments, the later for a higher one |
| HashMapGuarantees.MasksIncrease | tbb_concurrent_hash_map/include/tbb/concurrent_hash_map.h:182-206 | publishing raises the mask strictly, to one that covers exactly the buckets of the enabled segments |
| HashMapGuarantees.AwaitsBelow | tbb_concurrent_hash_map/include/tbb/concurrent_hash_map.h:633-643 | a bucket lock is awaited only below every bucket lock the client holds |
| HashMapGuarantees.NoDeadlock | tbb_concurrent_hash_map/include/tbb/concurrent_hash_map.h:633-681 | no reachable state has a cycle of clients waiting for bucket locks |
| HashMapLocalSteps.PassIsDeepest | tbb_concurrent_hash_map/include/tbb/concurrent_hash_map.h:228-256 | when check_mask_race reports no race, no bucket further down the path of the hash code is rehashed |
| HashMapItems.NewItemFree | tbb_concurrent_hash_map/include/tbb/concurrent_hash_map.h:1157-1170 | the item lock of a node just inserted can be acquired at once |
| BucketTree.NextMaskChild | tbb_concurrent_hash_map/include/tbb/concurrent_hash_map.h:237-256 | the search for the next applicable mask ends under the current mask, at the child of the old bucket towards the hash code |
| BucketTree.LowIsRemainder | tbb_concurrent_hash_map/include/tbb/concurrent_hash_map.h:208-214 | masking with 2^k - 1 is the remainder modulo 2^k |
| Segments.SlotsAreIndices | tbb_concurrent_hash_map/include/tbb/concurrent_hash_map.h:137-149 | slots of the enabled segments and indices up to the mask correspond one to one |
| Segments.WalkAgrees | tbb_concurrent_hash_map/include/tbb/concurrent_hash_map.h:323-338 | the pointer walk with the test k & (k - 2) agrees with get_bucket at every index |
| SerialTable.SearchHome | tbb_concurrent_hash_map/include/tbb/concurrent_hash_map.h:619-625 | the nearest rehashed ancestor of hash & mask has the key, once and with its value, if and only if the map does |
| SerialTable.SplitStores | tbb_concurrent_hash_map/include/tbb/concurrent_hash_map.h:651-681 | moving to a bucket the nodes of its parent that belong below it keeps what is stored |
| SerialTable.EnlargedStores | tbb_concurrent_hash_map/include/tbb/concurrent_hash_map.h:182-206 | adding pending buckets, or empty ones to an empty map, keeps what is stored |
| SerialMap.HashMap.Acquire | tbb_concurrent_hash_map/include/tbb/concurrent_hash_map.h:633-681 | the recursive acquire and rehash ends with the bucket rehashed and the same map stored |
| SerialMap.HashMap.Find | tbb_concurrent_hash_map/include/tbb/concurrent_hash_map.h:1112-1150 | find answers as the plain map |
| SerialMap.HashMap.Insert | tbb_concurrent_hash_map/include/tbb/concurrent_hash_map.h:259-272 | insert adds a new key and leaves an old one alone, growing the table with its load |
| SerialMap.HashMap.Erase | tbb_concurrent_hash_map/include/tbb/concurrent_hash_map.h:1240-1274 | erase removes exactly the key, and says whether it was there |
| SerialMap.HashMap.EqualRange | tbb_concurrent_hash_map/include/tbb/concurrent_hash_map.h:1192-1207 | equal_range finds the entry of the plain map without changing the table |
| SerialMap.HashMap.Reserve | tbb_concurrent_hash_map/include/tbb/concurrent_hash_map.h:275-280 | reserve reaches the requested number of buckets and keeps what is stored |
| SerialMap.HashMap.Rehash | tbb_concurrent_hash_map/include/tbb/concurrent_hash_map.h:1286-1315 | rehash(n) keeps what is stored, leaves the table that ScanFrom computes, and leaves no bucket pending if and only if WillComplete holds of the table, its size and n before the call |
| SerialRehash.MarkSpec | tbb_concurrent_hash_map/include/tbb/concurrent_hash_map.h:217-224 | mark_rehashed_levels marks exactly the pending buckets whose nearest rehashed ancestor is the given one |
| SerialRehash.RedistributeStores | tbb_concurrent_hash_map/include/tbb/concurrent_hash_map.h:1297-1313 | distributing the nodes of one root over its marked descendants keeps what is stored |
| SerialRehash.RehashSpec | tbb_concurrent_hash_map/include/tbb/concurrent_hash_map.h:1286-1315 | exactly which buckets the scan of the last segment leaves pending, and none if the pending ones were closed under descendants |
| SerialRehash.RehashCompletes | tbb_concurrent_hash_map/include/tbb/concurrent_hash_map.h:1286-1315 | the scan leaves no bucket pending, and then every node at hash & mask, if and only if every pending bucket has a pending bucket of the last segment with the same nearest rehashed ancestor |
| SerialRehash.AtMaskedHash | tbb_concurrent_hash_map/include/tbb/concurrent_hash_map.h:1286-1315 | without pending buckets every node is at hash & mask |
| SerialRehash.RehashAnswer | tbb_concurrent_hash_map/include/tbb/concurrent_hash_map.h:1286-1315 | for every table, size and n: rehash(n) leaves no bucket pending if and only if the table is covered, where it is large enough, or else the map is not empty or nothing is pending |
| SerialRehash.ReservedCovered | tbb_concurrent_hash_map/include/tbb/concurrent_hash_map.h:275-280 | after reserve the last segment covers all pending buckets if and only if WillComplete held before |
| SerialRehash.EmptiedStaysPending | tbb_concurrent_hash_map/include/tbb/concurrent_hash_map.h:275-280 | in an emptied map, reserve puts rehashed buckets below pending ones, and the scan of rehash() leaves every one of those pending |
| SerialMap.InsertEraseRehash | tbb_concurrent_hash_map/include/tbb/concurrent_hash_map.h:1286-1315 | one entry inserted and erased, then rehash(512): buckets 2 to 255 are still pending |
| SerialRehash.SplitClosed | tbb_concurrent_hash_map/include/tbb/concurrent_hash_map.h:651-681 | lazy rehashing keeps the pending buckets closed under descendants |
| SerialRehash.EnlargedClosed | tbb_concurrent_hash_map/include/tbb/concurrent_hash_map.h:182-206 | growth with pending buckets keeps them closed under descendants |
| SerialCopy.Assign | tbb_concurrent_hash_map/include/tbb/concurrent_hash_map.h:823-829 | assignment gives the map the contents of the other one; assigning a map to itself changes nothing |
| SerialCopy.Copy | tbb_concurrent_hash_map/include/tbb/concurrent_hash_map.h:1434-1470 | internal_copy, in its fast and its iterator form, spreads exactly the nodes of the other map over a table with room for them |
| SerialCopy.Equals | tbb_concurrent_hash_map/include/tbb/concurrent_hash_map.h:1478-1487 | operator== is equality of the contents |
| SerialWalk.VisitsOnce | tbb_concurrent_hash_map/include/tbb/concurrent_hash_map.h:323-338 | iteration over a possibly half rehashed map meets every entry exactly once |
| SerialWalk.Next | tbb_concurrent_hash_map/include/tbb/concurrent_hash_map.h:394-399 | operator++ leaves exactly the nodes after the current one to visit |
| SerialWalk.Midpoint | tbb_concurrent_hash_map/include/tbb/concurrent_hash_map.h:472-489 | the midpoint lies between the ends, after the begin of a range that is not empty, at a bucket with nodes or the end |
| SerialWalk.SplitsPartition | tbb_concurrent_hash_map/include/tbb/concurrent_hash_map.h:439-448 | any tree of splits has non-empty leaves that together visit the nodes of the range once, in order |
| PriorityQueueClass.Queue.HandleOperations | tbb_concurrent_hash_map/include/tbb/concurrent_priority_queue.h:354-435 | every batch is linearizable on an ideal priority queue and ends as a full heap with the ideal contents |
| PriorityQueueClass.Queue.Heapify | tbb_concurrent_hash_map/include/tbb/concurrent_priority_queue.h:438-453 | merging makes the whole vector a heap with the same elements |
| PriorityQueueClass.Queue.Reheap | tbb_concurrent_hash_map/include/tbb/concurrent_priority_queue.h:456-473 | refilling the root computes Reheaped |
| Heap.ReheapedIsHeap | tbb_concurrent_hash_map/include/tbb/concurrent_priority_queue.h:456-473 | taking the root leaves a heap |
| Heap.ReheapedKeeps | tbb_concurrent_hash_map/include/tbb/concurrent_priority_queue.h:456-473 | taking the root keeps exactly the other elements |
| PriorityQueueClass.FinishBatch | tbb_concurrent_hash_map/include/tbb/concurrent_priority_queue.h:354-435 | the books kept during a batch give an order of its operations that the ideal queue allows with the same answers |
| AggregatorSteps.StepInv | tbb_concurrent_hash_map/include/tbb/aggregator.h:108-177 | every step keeps the invariant of the mailbox, the handler and the operations, although addresses are used again |
| AggregatorGuarantees.OneHandlerOneWaiter | tbb_concurrent_hash_map/include/tbb/aggregator.h:149-177 | at most one thread is between setting and clearing handler_busy, at most one more waits for it |
| AggregatorGuarantees.ReturnsWhenApplied | tbb_concurrent_hash_map/include/tbb/aggregator.h:108-134 | execute_impl returns only after its operation was applied exactly once and finished |
| AggregatorGuarantees.AppliedAtMostOnce | tbb_concurrent_hash_map/include/tbb/aggregator.h:70-88 | a body is applied only to an operation not applied before whose thread is still in execute_impl |
| AggregatorGuarantees.HandlerHoldsPending | tbb_concurrent_hash_map/include/tbb/aggregator.h:70-88 | every address the handler may still follow is of an operation that is not finished |
| AggregatorGuarantees.FinishedUntouched | tbb_concurrent_hash_map/include/tbb/aggregator.h:70-88 | a finished operation is not touched until its address is used for a new one |
| AggregatorGuarantees.SomeoneMoves | tbb_concurrent_hash_map/include/tbb/aggregator.h:108-177 | while any thread is in execute_impl, some thread can take a step |
| LocalTableGuarantees.HalfFull | tbb_concurrent_hash_map/include/tbb/enumerable_thread_specific.h:171-241 | no published array is ever more than half full, and no key is in it twice |
| LocalTableGuarantees.ProbesEnd | tbb_concurrent_hash_map/include/tbb/enumerable_thread_specific.h:179-199 | a probing thread inspects each slot of an array at most once |
| LocalTableGuarantees.ReturnsOwnElement | tbb_concurrent_hash_map/include/tbb/enumerable_thread_specific.h:171-241 | a thread that returns gets the element created for it |
| LocalTableGuarantees.SamePointer | tbb_concurrent_hash_map/include/tbb/enumerable_thread_specific.h:171-241 | a thread gets the same pointer on every call, and no two threads get the same |
| LocalTableSteps.ProbeOwn | tbb_concurrent_hash_map/include/tbb/enumerable_thread_specific.h:179-199 | an empty slot ends the search of an array: the key is not in it nor in any newer one |
| LocalTableGuarantees.RunInv | tbb_concurrent_hash_map/include/tbb/enumerable_thread_specific.h:171-241 | in every run tickets are distinct and at most half the size of the arrays their keys are in, and keys are reached over taken slots |
| LruCache.Cache.Retrieve | tbb_concurrent_hash_map/include/tbb/concurrent_lru_cache.h:240-257 | a handle more; the record leaves the history; a new record asks for its value exactly when the key was not stored |
| LruCache.Cache.Publish | tbb_concurrent_hash_map/include/tbb/concurrent_lru_cache.h:89-99 | the value is computed once per residency and only then the record is ready |
| LruCache.Cache.Value | tbb_concurrent_hash_map/include/tbb/concurrent_lru_cache.h:89-99 | a caller with a handle sees no value before it is ready, and then the right one |
| LruCache.Cache.Release | tbb_concurrent_hash_map/include/tbb/concurrent_lru_cache.h:259-280 | a handle less; the last one puts the record at the front of the history, which keeps its bound by evicting its last entry; this is defined if and only if another handle is left or the history may hold an entry |
| LruCache.LastIdlesLongest | tbb_concurrent_hash_map/include/tbb/concurrent_lru_cache.h:267-276 | the last entry of the history is the one idle longest |
| LruCache.EvictInv | tbb_concurrent_hash_map/include/tbb/concurrent_lru_cache.h:267-276 | evicting the last entry keeps: counts equal handles, in the history if and only if the count is zero |
| LruCache.PopsWhatIsThere | tbb_concurrent_hash_map/include/tbb/concurrent_lru_cache.h:267-276 | whatever is in the cache, the eviction loop pops only entries that are there if and only if the history size is at least one |
| LruCache.NoHistory | tbb_concurrent_hash_map/include/tbb/concurrent_lru_cache.h:259-280 | with history size zero the first value given back leads to an eviction from an empty list |
| MsgRoundTrip.RoundTrip | msgpack-c/include/msgpack/unpack_template.h:89-446 | followed by anything, the encoding of an object decodes to it and consumes exactly its bytes if and only if it is decodable; nesting beyond 32 is answered by NOMEM |
| MsgRoundTrip.PrefixFree | msgpack-c/src/objectc.c:29-116 | the encoding of decodable objects is injective and prefix-free |
| MsgRoundTrip.SizeFitsExactly | msgpack-c/src/unpack.c:190-233 | the overflow tests of the array and map callbacks are exact |
| MsgRoundTrip.UintMeans | msgpack-c/include/msgpack/pack_template.h:97-170 | what the packer writes for an unsigned integer is read back as it |
| MsgRoundTrip.NegativeMeans | msgpack-c/include/msgpack/pack_template.h:200-266 | what the packer writes for a negative integer is read back as it |
| MsgRoundTrip.StrMeans | msgpack-c/include/msgpack/pack_template.h:751-769 | a str header announces a str of its length |
| MsgRoundTrip.BinMeans | msgpack-c/include/msgpack/pack_template.h:805-820 | a bin header announces a bin of its length |
| MsgRoundTrip.ExtMeans | msgpack-c/include/msgpack/pack_template.h:831-886 | an ext header announces type and body, one byte more than its length, modulo 2^32 |
| MsgRoundTrip.ArrMeans | msgpack-c/include/msgpack/pack_template.h:709-725 | an array header opens an array of its count |
| MsgRoundTrip.MapMeans | msgpack-c/include/msgpack/pack_template.h:730-746 | a map header opens a map of its count |
| MsgDecoder.RunSplit | msgpack-c/include/msgpack/unpack_template.h:89-446 | stopping at any byte and resuming equals one uninterrupted run |
| MsgExecutor.Context.Execute | msgpack-c/include/msgpack/unpack_template.h:89-446 | the state machine over the embedded stack computes the outcome of the functional decoder, and sets the referenced flag exactly when a payload is pointed at |
| MsgExecutor.Context.Push | msgpack-c/include/msgpack/unpack_template.h:380-418 | the push loop closes exactly the containers that become full |
| MsgPacker.Packer.PackObject | msgpack-c/src/objectc.c:29-116 | the sink receives exactly the encoding, or a prefix of it if a write is refused |
| MsgEqual.ObjectEqual | msgpack-c/src/objectc.c:472-548 | true if and only if the objects are the same |
| MsgStream.ChunksDontMatter | msgpack-c/src/unpack.c:528-581 | delivering any bytes chunk by chunk gives the reports and the final state of one uninterrupted run |
| MsgStream.StreamRoundTrip | msgpack-c/src/unpack.c:528-581 | for every list of decodable objects and every way of cutting their encodings into chunks, exactly these objects come out, in order and with their sizes |
| MsgStream.SizesConserved | msgpack-c/src/unpack.c:564-581 | the sizes reported, the bytes of the object in progress and the bytes waiting add up to what was delivered |
| MsgMinimal.PackIsMinimal | msgpack-c/include/msgpack/unpack_template.h:164-378 | whatever bytes the decoder accepts, packing the object again takes no more bytes and is a fixed point |
| MsgPayloads.RunReads | msgpack-c/src/unpack.c:246-284 | the payloads of the object, finished or in progress, are exactly what the pointers set so far read, all within the consumed bytes |
| MsgBuffers.Buffers.Expand | msgpack-c/src/unpack.c:390-463 | afterwards there is room, the unparsed bytes are still there, and every live view still reads what it read |
| MsgBuffers.Buffers.Rewind | msgpack-c/src/unpack.c:392-402 | a buffer is rewound only when nobody views it |
| MsgBuffers.Buffers.Grow | msgpack-c/src/unpack.c:404-423 | a buffer is moved by realloc, which frees the old block, without any live view losing its bytes |
| MsgBuffers.Buffers.Replace | msgpack-c/src/unpack.c:425-460 | the old buffer is handed to a finalizer of the zone that refers to it, or released |
| MsgBuffers.Buffers.Flush | msgpack-c/src/unpack.c:507-519 | the zone gets a counted reference to the buffer it refers to |
| MsgBuffers.Buffers.ReleaseZone | msgpack-c/src/unpack.c:481-500 | the zone handed out keeps every view of its objects alive |
| MsgBuffers.Buffers.FreeZone | msgpack-c/include/msgpack/unpack.h:257-264 | freeing a zone runs its finalizers; only its own views die |
| MsgBuffers.Buffers.Destroy | msgpack-c/src/unpack.c:362-367 | the views of other zones survive the unpacker |
| MsgBuffers.ReleaseFin | msgpack-c/src/unpack.c:297-303 | decrementing a counted buffer keeps every count equal to its finalizers plus its owner |
| MsgBuffers.NoViews | msgpack-c/src/unpack.c:392-394 | a buffer counted once and not referenced has no views and no finalizers |
| MsgBuffers.NoLeak | msgpack-c/src/unpack.c:297-303 | once the unpacker and all zones are gone, every buffer has been freed |
| MsgUnpacker.Unpacker.NextWithSize | msgpack-c/src/unpack.c:528-581 | answers as the functional decoder; the payloads of the object returned are what live views of the zone handed out read |
| MsgUnpacker.Unpacker.Feed | msgpack-c/include/msgpack/unpack.h:219-239 | the bytes are appended to those waiting, or nothing changes |
| MsgUnpacker.Unpacker.Drain | msgpack-c/src/unpack.c:528-581 | calling next until it stops gives the reports and the state of MsgStream.Drain |
| MsgZone.Zone.Malloc | msgpack-c/include/msgpack/zone.h:106-127 | the block is word-aligned, inside its chunk and apart from all live blocks |
| MsgZone.Zone.MallocNoAlign | msgpack-c/include/msgpack/zone.h:90-104 | the block has the requested size, inside its chunk and apart from all live blocks |
| MsgZone.Zone.Clear | msgpack-c/src/zone.c:178-182 | every finalizer runs once, the last pushed first; the oldest chunk remains, empty, with exactly chunk_size bytes |
| MsgZone.Zone.CallFinalizers | msgpack-c/src/zone.c:107-113 | the calls are the finalizers in reverse order |
| MsgZone.CutBlock | msgpack-c/include/msgpack/zone.h:90-127 | a block cut off at the cursor is apart from every block cut before |

## Left out

- The application CustomersCardMS: Windows sockets, completion ports and object pools around commented-out commands.
- Resuming a decoder that has answered an error: after an error the unpacker model answers no further calls.
- msgpack_unpack and msgpack_unpack_next: single-shot wrappers around the same decoder.
- The fixed-size integer encoders and msgpack_pack_v4raw: easy variants of the modelled encoders.
- vrefbuffer, sbuffer, zbuffer and fbuffer: append-only sinks; zlib and FILE are foreign code.
- Printing of objects and IEEE float comparison: msgpack_object_equal is modelled on float bits.
- table_elementwise_copy, table_clear and the native TLS variant of the thread-local table: serial code on the modelled table.
- SerialCopy.Assign: both maps have the same hash function, as the HashCompare type gives it; a HashCompare object with state is not copied by the source either.
- Swapping hash maps, and building one from a range or list with duplicate keys: internal_copy adds nodes without searching.
- Exceptions (except a throwing push_back in the priority queue), allocators, move semantics, statistics and memory fences.
- HashMapProtocol: clear(), copying and iteration are serial operations and appear only in the serial model.
- SerialMap.HashMap.Acquire: the bucket is marked after its parent is acquired, where the source marks it before to keep other threads out.
- SerialMap.HashMap.Find: nodes are values in lists; item locks and node addresses appear only in the concurrent model.
- LruCache.Cache.Release: the count is decremented after the eviction, where the source decrements it before; the handler is serial. Where the source pops from an empty list, the model stops and changes nothing.
- MsgBuffers.Buffers.Grow: realloc always moves the block, which is the worst case for views.
- AggregatorGuarantees.SomeoneMoves: says that the system is never stuck, not that a scheduler lets every thread finish.
