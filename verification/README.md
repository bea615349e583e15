# MetaObject: a verified model of its runtime core

MetaObject is a C++ reflection and runtime library.  This project models the parts of it
that are hard to get right and proves what they keep over every run:

* **Signals, slots and the inter-thread queue.**  `SignalProtocol` is a transition system:
  any number of threads emit through relays, push closures and drain queues, each with its
  own call stack, while slots connect, disconnect and are destroyed.  Locks are owned by a
  stack position, because `std::mutex` is not recursive.  `SignalInvariant` holds the
  inductive invariant, `SignalSafety`, `EmissionDelivery`, `ConnectedSlots`, `ThreadAffinity`
  and `SignalProgress` the results.
  `InterThread` and `SignalGraph` are the same components as the mutable objects they are, one
  method per source function.  `Wirings` and `DeliveryCounts` count deliveries over whole runs,
  and `SignalPrograms` ties those runs to the objects.  `Sequences` holds list helpers.
* **The pooled allocator.**  `MemoryBlocks` (best fit over implicit gaps), `WrittenAllocator`
  (when the code as written is safe), `MemoryConservation` (bytes and live maps), `MemoryPools`
  (growing list of blocks), `MemoryStacks` (exact-size free list with lazy release) and
  `CombinedPolicies` (routing by size).  `MachineWords` holds the range of a `size_t`.
* **Time-indexed buffers.**  `TimeBuffers` (the reference `Map` and the pruning
  `StreamBuffer`), `StreamReads` (its interleaved reads), `BlockingProtocol` (the bounded
  blocking producer and its consumer), `CircularBuffers` (the bounded history).  `OrderedKeys`
  holds first and last keys.
* **Fast forms that equal simple forms.**  `Crc` (table-driven CRC-32 and class-name hash
  against section 8 of RFC 1952), `TextVector` (printer and parser of integer vectors),
  `StandOut` and `NestedNames` (the in-place reformatter of function names, and what it does
  told by nesting depth) and `InfoCollection` (infos gathered over an inheritance graph).

Raw allocation, clock readings, the calling thread's id and the addresses of new blocks are
parameters.  Integers are unbounded except where width decides the outcome: `size_t`
wrap-around in `CombinedPolicies`, `MemoryBlocks`, `MemoryStacks` and `StandOut`, 32-bit registers in `Crc`,
the element range and `size_t` in `TextVector`.

## What the proofs found

Where the code does not do what it is meant to do, the model follows the code, a lemma gives
the failing input and another says exactly when the code is right.

* `MemoryBlock::allocate` computes a gap's usable length as gap **plus** alignment offset.  A
  short run places a request over a live range (`WrittenFormOverlaps`).  It does not exactly
  when the place of the gap that gets the request lies in one gap (`PlacedFreeIff`,
  `EveryRequestIsFreeIff`), which for a request of at least one element means room behind the
  offset (`WholeIsFreeIff`; over runs `RunIsSafeIff`, for the pool `PoolRunIsSafeIff`), for
  instance on a granule that every element size divides (`GrainedRunsAreSafe`); with gap minus
  offset it never does (`IntendedRunsAreSafe`).  Once ranges overlap their gap wraps and serves
  almost any request (`OverlapPasses`, `OverlapIsServed`).
* For the same reason freeing can lose another live range (`WrittenFormOverwrites`).  Freeing
  undoes the allocation exactly when the gap that gets the request, moved by its offset, begins
  in the block and at no live range (`FreeUndoesIff`).  So the loss needs a request smaller than
  one element: for all others freeing always restores the live map (`FreeUndoesWhole`), as it
  does for all requests with gap minus offset (`FreeUndoesIntended`).
* The same function refuses a request whenever the last gap has exactly the requested size,
  however large the other gaps are, unless that gap needs an offset (`RefusedIff`,
  `ExactTailRefusesEverything`).
* A pool grows by a block and then, as written, serves the request exactly when it is smaller
  than half the initial block or the new address is not aligned (`GrowthServesIff`); in the
  second case it can be served past the end of the block (`GrowthOverruns`,
  `GrowthStaysInsideIff`).
* Forced cleanup of the stack allocator keeps the entries freed at clock reading 0
  (`ForcedCleanupKeepsTimeZero`).
* A pointer read from `StreamBuffer` can be invalidated by the read's own prune when there are
  two readers (`OtherReaderPrunesMyEntry`); `OwnPruneErasesIff` and `PointerValidIff` say
  exactly when, and with one reader it happens exactly for padding < 0 and a timestamp other
  than -1 (`OneReaderKeepsPointer`).
* `BlockingStreamBuffer` always delivers a stream in full if and only if no `size` values in a
  row, with more to come, lie within the padding of the last of them (`EveryEndDeliversIff`); for
  consecutive timestamps, if and only if its size exceeds its padding by more than one
  (`ProgressIffRoomBeyondPadding`).
* `CircularBuffer` answers a repeated timestamp with its first buffered value, the `Map` with
  its last; `ReadsAgreeIff` says exactly for which timestamps reads agree.  Shrinking it drops
  the newest entries (`ResizeKeepsWindowIff`, `ShrinkingLosesNewest`).
* A slot connected through a return-value relay executes on the emitting thread, whatever its
  context (`ReturnValueRunsAnywhere`).  It is enough that emissions go through void relays in the
  emitting thread's own context (`OwnContextsRunAtHome`).  No other thread can come to call a slot exactly when
  every emission through a relay that holds it is made on its own thread or queues it there,
  and its closures are popped by that thread (`SlotsRunOnTheirThreadIff`; for one emission
  `EmissionStaysHomeIff`).
* `hashClassName` never looks at the first byte of its argument (`FirstByteIsNeverHashed`).

## Model

| member | source | states |
|---|---|---|
| SignalSafety.DestroyedSlotIsNeverCalled | include/MetaObject/Signals/detail/TypedSlotImpl.hpp:30-36 | in every interleaving, after both destructors of a slot have finished, no relay holds it, no queue or call stack mentions it, and no enabled step of any thread calls it, for ever |
| SignalSafety.UnhookedSlotIsNotEmitted | src/Signals/ISlot.cpp:7-14 | between the two destructors no relay holds the slot, nothing new is queued for it, and only closures queued earlier can still call it |
| SignalSafety.DeadIsUnreachable | src/Signals/ISlot.cpp:7-14 | in any state that meets the invariant, a destroyed slot is mentioned nowhere |
| SignalSafety.QueueRunsInPushOrder | src/inter_thread.cpp:32-98 | what has run followed by what waits is exactly what was pushed less what was purged, each once, in push order; only entries of slots being destroyed are purged |
| SignalSafety.DrainRunsItsBatch | src/inter_thread.cpp:51-78 | run ends after exactly the closures queued when it took the lock, run_once after the first of them |
| SignalSafety.LockedQueueOnlyDrains | src/inter_thread.cpp:44-64 | while a queue's lock is held no step lengthens the queue, and only its holder's pops shorten it, by one each |
| SignalSafety.DrainIsBounded | src/inter_thread.cpp:58-64 | while a drain goes on, whatever other threads and the closures do, the pops of its queue and what is left of it add up to what was queued when it took the lock, so it makes at most that many calls |
| SignalSafety.PurgeSeesEveryQueue | src/inter_thread.cpp:79-98 | while a destructor purges the queues no thread creates one, so it reaches them all |
| SignalInvariant.RunKeepsInv | include/MetaObject/Signals/detail/TypedSignalRelayImpl.hpp:11-110 | the invariant over relay locks, queue locks, slot lists, logs and calls in flight holds after every run |
| SignalInvariant.OpKeepsHeld | include/MetaObject/Signals/detail/TypedSlotImpl.hpp:64-113 | through every connect, disconnect and destructor step, a relay holds a slot only if the slot's list, or its step in progress, leads back to the relay |
| SignalInvariant.PurgeLog | src/inter_thread.cpp:79-98 | erasing a slot's entries from a queue removes exactly their positions from the push log and nothing else |
| SignalInvariant.ActKeepsFrame | include/MetaObject/Signals/detail/TypedSignalRelayImpl.hpp:11-67 | whatever any thread does, every call frame keeps its lock and every call in flight its live slot |
| EmissionDelivery.EmissionServesEachSlotOnce | include/MetaObject/Signals/detail/TypedSignalRelayImpl.hpp:11-36 | whatever other threads and the called slots do meanwhile, an emission under its relay lock serves no slot twice, the relay's slots stay fixed, and those not yet served are exactly the ones it still has to do |
| EmissionDelivery.EmissionDeliversExactly | include/MetaObject/Signals/detail/TypedSignalRelayImpl.hpp:11-36 | an emission that can give its relay's lock up has called or queued each slot the relay held when it took the lock, and no other, exactly once |
| EmissionDelivery.OnlyEndUnlocks | include/MetaObject/Signals/detail/TypedSignalRelayImpl.hpp:13-36 | no other step of any thread gives a relay's lock up |
| ConnectedSlots.HookAdds | include/MetaObject/Signals/detail/TypedSignalRelayImpl.hpp:97-103 | a connect to a void relay keeps the slots it holds and adds one, to a return-value relay it leaves that one; other relays are untouched |
| ConnectedSlots.ConnectedSlotIsServed | include/MetaObject/Signals/detail/TypedSignalRelayImpl.hpp:11-36 | in every interleaving, once a slot is connected to a void relay and until it is disconnected or destroyed, every emission through the relay that ends has called or queued it exactly once |
| ConnectedSlots.DisconnectedSlotIsNotServed | include/MetaObject/Signals/detail/TypedSlotImpl.hpp:99-113 | once disconnected, and until connected again, no emission through the relay serves it |
| SignalProgress.EmissionCanEnd | include/MetaObject/Signals/detail/TypedSignalRelayImpl.hpp:11-36 | an emission that finds its relay and the queues unlocked can go on to its end; the thread is then where it was and the relay unlocked |
| SignalProgress.DrainCanEnd | src/inter_thread.cpp:58-78 | a drain that has its lock can always go on to its end |
| SignalProgress.ConnectCompletes | include/MetaObject/Signals/detail/TypedSlotImpl.hpp:64-97 | connecting in either order leaves the slot held by the relay and listing it last |
| SignalProgress.DisconnectCompletes | include/MetaObject/Signals/detail/TypedSlotImpl.hpp:99-113 | a disconnect leaves the slot unheld and one entry shorter |
| SignalProgress.DestroyCanEnd | include/MetaObject/Signals/detail/TypedSlotImpl.hpp:29-36 | the destructors of an idle slot can go on to their end when the locks are free |
| ThreadAffinity.OwnContextsRunAtHome | include/MetaObject/Signals/detail/TypedSignalRelayImpl.hpp:11-67 | if every emission through a relay that holds the slot goes through a void relay in the emitting thread's own context of the slot's process, and no other thread starts to drain its queue, then over every run the slot executes on its own thread only |
| ThreadAffinity.SlotsRunOnTheirThreadIff | include/MetaObject/Signals/detail/TypedSignalRelayImpl.hpp:11-67 | along any run no thread but the slot's own can ever make the next call to it, if and only if every emission taken through a relay that holds it is made on its thread or queues it there, and no other thread is ever about to pop one of its closures |
| ThreadAffinity.EmissionStaysHomeIff | include/MetaObject/Signals/detail/TypedSignalRelayImpl.hpp:14-34 | for one emission through a relay that holds the slot: whatever happens while it goes on, it can come to call the slot itself if and only if the relay is a return-value one, a context is missing, or the contexts name different processes or the same thread |
| ThreadAffinity.SlotsRunOnTheirThread | include/MetaObject/Signals/detail/TypedSignalRelayImpl.hpp:14-34 | it is enough that such emissions are made on the slot's thread or queue it there and that no other thread starts to drain the queue of that thread; the slot then executes on no other |
| ThreadAffinity.PushCallsIff | src/inter_thread.cpp:32-38 | a push on its way runs the slot at once if and only if it goes to its own thread |
| ThreadAffinity.ReturnValueRunsAnywhere | include/MetaObject/Signals/detail/TypedSignalRelayImpl.hpp:136-146 | a return-value relay executes its slot on the emitting thread, whatever the slot's own: a run for every thread, slot and context |
| InterThread.ThreadQueues.Push | src/inter_thread.cpp:32-50 | a push to the own thread runs the closure at once and queues nothing, any other push appends and runs nothing |
| InterThread.ThreadQueues.TryPop | include/MetaObject/Detail/ConcurrentQueue.hpp:140-148 | removes and returns the front, or changes nothing when empty |
| InterThread.ThreadQueues.Run | src/inter_thread.cpp:51-64 | records one call for each closure queued on entry, in push order, leaves the queue empty and all others alone; what a closure does is not modelled here |
| InterThread.CallsAreClosures | src/inter_thread.cpp:58-64 | running a queue makes one call for each closure, in order |
| InterThread.ThreadQueues.RunOnce | src/inter_thread.cpp:65-78 | calls the first closure only |
| InterThread.EraseTagged | src/inter_thread.cpp:85-96 | the erase loop leaves exactly the closures of other slots, in their order |
| InterThread.ThreadQueues.RemoveFromQueue | src/inter_thread.cpp:79-98 | every queue loses exactly the slot's closures |
| InterThread.ThreadQueues.Size | src/inter_thread.cpp:99-103 | the number of queued closures; asking creates an empty queue |
| InterThread.PurgedClosuresAreNotRun | src/inter_thread.cpp:51-98 | draining a purged queue makes the same calls in the same order and number, less the purged slot's |
| SignalGraph.Relay.ConnectSlot | include/MetaObject/Signals/detail/TypedSignalRelayImpl.hpp:97-103 | a void relay adds the slot, a return-value relay replaces its slot and reports a repeat |
| SignalGraph.Relay.DisconnectSlot | include/MetaObject/Signals/detail/TypedSignalRelayImpl.hpp:105-110 | the slot is gone, true if it was there |
| SignalGraph.Relay.Emit | include/MetaObject/Signals/detail/TypedSignalRelayImpl.hpp:37-45 | one emission calls each held slot exactly once, whether inline or through a queue |
| SignalGraph.Slot.ConnectSignal | include/MetaObject/Signals/detail/TypedSlotImpl.hpp:53-72 | a fresh relay holding only this slot joins signal and slot; with another signature nothing changes; every relay's slots still list it |
| SignalGraph.Slot.ConnectRelay | include/MetaObject/Signals/detail/TypedSlotImpl.hpp:73-79 | joins a shared relay, keeping every relay's slots linked back to it |
| SignalGraph.Slot.ConnectPointer | include/MetaObject/Signals/detail/TypedSlotImpl.hpp:80-97 | fills a null relay pointer, joins a relay of the same signature, leaves any other alone, links kept |
| SignalGraph.Slot.Disconnect | include/MetaObject/Signals/detail/TypedSlotImpl.hpp:99-113 | removes the first entry for the relay and unhooks the slot; false and unchanged when there is none; links kept |
| SignalGraph.Slot.Destroy | include/MetaObject/Signals/detail/TypedSlotImpl.hpp:29-36 | afterwards no relay holds the slot and all relays keep their other slots |
| SignalGraph.Signal.ConnectRelay | include/MetaObject/Signals/detail/TypedSignalImpl.hpp:182-197 | a relay is added at most once; the return-value form replaces its only relay |
| SignalGraph.Signal.DisconnectRelay | include/MetaObject/Signals/detail/TypedSignalImpl.hpp:230-242 | removes the relay, true if it was there |
| SignalGraph.Signal.Emit | include/MetaObject/Signals/detail/TypedSignalImpl.hpp:132-143 | the calls, inline or queued, are those of all relays, with multiplicity |
| SignalGraph.DeliveriesAreHolders | include/MetaObject/Signals/detail/TypedSignalImpl.hpp:132-143 | one emission calls a slot as often as there are relays of the signal that hold it |
| DeliveryCounts.EmissionCountsConnections | include/MetaObject/Signals/detail/TypedSignalImpl.hpp:132-197 | after any run of connects and disconnects of any slots, signals and keys, one emission of a signal calls a slot once for each direct connect of the two, less once for each successful disconnect of one, plus once for each key both have joined and not left |
| DeliveryCounts.KeyCallsOnce | src/RelayManager.cpp:39-49 | whatever the order and repetition of joins, a signal at a key calls each slot still in that key's relay exactly once, and no other |
| DeliveryCounts.DisconnectSucceedsOnce | include/MetaObject/Signals/detail/TypedSlotImpl.hpp:99-113 | after a successful disconnect of a direct connection the next one fails |
| DeliveryCounts.DisconnectedForGood | include/MetaObject/Signals/detail/TypedSlotImpl.hpp:99-113 | and so does every later one, after any run |
| Wirings.NextKeepsInv | include/MetaObject/Signals/detail/TypedSlotImpl.hpp:53-113 | every connect, join, leave and disconnect keeps: held slots list their relay, direct relays serve one slot and one signal, no signal lists a relay twice, keys have different relays |
| SignalPrograms.Program.ExecuteThenEmit | include/MetaObject/Signals/detail/TypedSignalImpl.hpp:132-197 | a whole program of connects and disconnects on the objects, then an emission: the calls each slot gets are the counts above |
| SignalPrograms.Program.Execute | include/MetaObject/Signals/detail/TypedSlotImpl.hpp:53-113 | each method call on the objects is one step of the wiring they form |
| SignalPrograms.Program.Disconnect | src/Signals/connection.cpp:24-31 | the i-th connection's disconnect succeeds exactly while its slot lists its relay, and is one step of the wiring |
| SignalGraph.ConnectDirect | include/MetaObject/Signals/detail/TypedSlotImpl.hpp:64-72 | the exact new lists of slot and signal: a fresh relay holding only the slot is appended to both; nothing changes for another signature |
| SignalGraph.SlotConnection.Disconnect | src/Signals/connection.cpp:24-31 | true exactly if the slot lists the relay; then one entry goes and the relay lets the slot go, otherwise nothing changes |
| SignalGraph.RelayManager.ConnectSlot | src/RelayManager.cpp:39-43 | the slot joins and lists the one relay of its signature and name, made on first use; the exact new key map, relay, slot list and connection |
| SignalGraph.RelayManager.ConnectSignal | src/RelayManager.cpp:45-49 | the signal joins its key's relay unless it has it; the exact new key map, relay list and connection |
| SignalGraph.SignalConnection.Disconnect | src/Signals/connection.cpp:54-66 | the signal drops the relay the connection was made with, true if it had it, otherwise nothing changes |
| MemoryBlocks.OffsetAligns | include/MetaObject/Detail/AllocatorImpl.hpp:24-35 | the offset is smaller than the element size, leads to a multiple of it, and is 0 exactly on multiples |
| MemoryBlocks.AlignmentOffset | include/MetaObject/Detail/AllocatorImpl.hpp:24-35 | the loop finds the first offset that aligns |
| MemoryBlocks.MemoryBlock.Candidates | src/MemoryBlock.cpp:51-75 | for any live map, overlapping or not, one pass collects exactly the gaps that pass the tests, with their usable length and place; negative differences wrap |
| MemoryBlocks.MemoryBlock.Allocate | src/MemoryBlock.cpp:46-89 | places the request at the minimal candidate or leaves the block unchanged and returns null |
| MemoryBlocks.MemoryBlock.DeAllocate | src/MemoryBlock.cpp:91-103 | erases the range that begins at the pointer; true exactly between begin and end inclusive |
| MemoryBlocks.ChooseIsMinElement | src/MemoryBlock.cpp:76-88 | the place chosen is the first minimal element of the candidate list, if it is larger than the request |
| MemoryBlocks.BestFit | src/MemoryBlock.cpp:51-88 | without padding the chosen gap is the leftmost of the smallest gaps strictly larger than the request |
| MemoryBlocks.RefusalIff | src/MemoryBlock.cpp:68-88 | without padding null is returned if and only if no gap is larger than the request or the last gap equals it |
| WrittenAllocator.RefusedIff | src/MemoryBlock.cpp:55-88 | for any element size, as written, null is returned if and only if no gap passes its test or the last gap equals the request and needs no offset |
| WrittenAllocator.ExactTailRefusesEverything | src/MemoryBlock.cpp:68-88 | a run from an empty block to one with a gap of twenty bytes that refuses five |
| WrittenAllocator.PlacedFreeIff | src/MemoryBlock.cpp:46-89 | as written, any request is placed on free bytes if and only if the place behind the offset of the gap that gets it, by lengths and offsets, lies in one gap |
| WrittenAllocator.WholeIsFreeIff | src/MemoryBlock.cpp:46-89 | for a request of at least one element, if and only if that gap has room behind its offset |
| WrittenAllocator.EveryRequestIsFreeIff | src/MemoryBlock.cpp:46-89 | for a block and an element size, requests of every size are placed free if and only if no gap gets the largest request it passes while the place of that lies in no gap |
| WrittenAllocator.RunIsSafeIff | src/MemoryBlock.cpp:47-103 | a run of requests of at least one element and frees keeps every state valid and aligned if and only if in each state the gap that gets the request has room |
| WrittenAllocator.WrittenFormOverlaps | src/MemoryBlock.cpp:60-73 | three requests on an empty block, the last of which lands on a live range |
| WrittenAllocator.OverlapPasses | src/MemoryBlock.cpp:52-66 | the difference between overlapping ranges wraps, so their gap passes both tests for every request not nearly as large as the address space |
| WrittenAllocator.OverlapIsServed | src/MemoryBlock.cpp:52-88 | after that run the next ten bytes are served in the middle of a live range |
| MemoryBlocks.IntendedRunsAreSafe | src/MemoryBlock.cpp:47-103 | with gap minus offset, which the code does not compute, live ranges are disjoint, inside the block and aligned over every run |
| MemoryBlocks.GrainedRunsAreSafe | src/MemoryBlock.cpp:47-103 | as written the same holds on a granule that every element size divides, and the two forms then agree step by step |
| MemoryConservation.StepBytes | src/MemoryBlock.cpp:83-103 | a served request adds exactly its size to the live bytes, a release of a live begin takes exactly that range's length, any other step changes nothing |
| MemoryConservation.BytesAreConserved | src/MemoryBlock.cpp:47-103 | over every run whose requests fit, live bytes are those at the start plus bytes served less bytes returned, no gap is negative, and gaps and live ranges add up to the block |
| MemoryConservation.RoomFitsAlong | src/MemoryBlock.cpp:47-103 | as written, requests fit on every run that RunIsSafeIff calls safe |
| MemoryConservation.IntendedBytesAreConserved | src/MemoryBlock.cpp:47-103 | with gap minus offset, which the code does not compute, bytes are conserved over every run |
| MemoryConservation.FreeUndoesIff | src/MemoryBlock.cpp:83-103 | as written, for any request, freeing what was just allocated restores the exact live map if and only if the gap that gets it, moved by its offset, begins in the block and at no live range |
| MemoryConservation.FreeUndoesWhole | src/MemoryBlock.cpp:83-103 | as written it always does for a request of at least one element, even one placed over a live range |
| MemoryConservation.FreeUndoesUnpadded | src/MemoryBlock.cpp:83-103 | for requests smaller than one element it does on blocks where no gap needs padding |
| MemoryConservation.WrittenFormOverwrites | src/MemoryBlock.cpp:60-103 | a run from an empty block to one where half an element overwrites a live entry, so that freeing it loses that range |
| MemoryConservation.FreeingAllCoalesces | src/MemoryBlock.cpp:91-103 | freeing every range, in any order, leaves one gap as large as the block |
| MemoryPools.FirstFit | src/Allocator.cpp:146-157 | the block that can serve the request, every block before it refusing |
| MemoryPools.CpuMemoryPool.TryBlocks | src/Allocator.cpp:146-157 | the first block that can serve the request serves it, all others are unchanged; null if and only if every block refuses |
| MemoryPools.CpuMemoryPool.Grow | src/Allocator.cpp:158-170 | one block of the larger of half the initial size and the request is appended and tried, all others are unchanged |
| MemoryPools.CpuMemoryPool.Allocate | src/Allocator.cpp:142-171 | the first block that can serve the request serves it; if and only if every block refuses, one fresh block is added and tried; the pool stays usable in both forms |
| MemoryPools.Owner | src/Allocator.cpp:200-215 | the block whose half-open range holds the pointer, none before it holding it |
| MemoryPools.CpuMemoryPool.Deallocate | src/Allocator.cpp:200-215 | only the block whose range holds the pointer changes |
| MemoryPools.PoolRunsAreSafe | src/Allocator.cpp:142-215 | with gap minus offset, over every run blocks stay apart and inside each the live ranges stay disjoint and aligned |
| MemoryPools.PoolRunIsSafeIff | src/Allocator.cpp:142-215 | the pool as written, over runs of requests of at least one element: every state is safe if and only if in each state the gap that gets the request, in the block that gets it, has room |
| MemoryPools.GrainedPoolRunsAreSafe | src/Allocator.cpp:142-215 | the pool as written is safe on a granule that every element size divides |
| MemoryPools.FreeReachesOwner | src/Allocator.cpp:200-215 | freeing a live address changes exactly the block that handed it out, where it is then gone |
| MemoryPools.GrowthServesIff | src/Allocator.cpp:159-170 | a request that made the pool grow is served, as written, if and only if it is smaller than half the initial block or the new address is not aligned; with gap minus offset, if and only if offset plus size is less than the new block |
| MemoryPools.GrowthStaysInsideIff | src/Allocator.cpp:159-170 | as written, what is served lies inside the new block if and only if offset plus size is at most its size |
| MemoryPools.GrowthOverruns | src/Allocator.cpp:158-170 | two requests to a new pool, the second served two bytes past the end of the block made for it, which leaves the pool unsafe |
| MemoryStacks.CpuMemoryStack.Allocate | src/Allocator.cpp:276-295 | the first cached entry of exactly the requested size is handed out and leaves the cache, else the host is asked |
| MemoryStacks.CpuMemoryStack.Deallocate | src/Allocator.cpp:318-324 | the block is cached with its free time, then stale entries go back to the host |
| MemoryStacks.CpuMemoryStack.Cleanup | src/Allocator.cpp:326-346 | the in-place erase loop removes exactly the stale entries and returns them in list order |
| MemoryStacks.StaleEntriesArePrefix | src/Allocator.cpp:331-345 | with monotone clock readings a cleanup cuts the list in two, gives back the front and keeps the back |
| MemoryStacks.ForcedCleanupKeepsTimeZero | src/Allocator.cpp:326-345 | forced cleanup leaves exactly the entries freed at clock reading 0, so everything goes if and only if there are none |
| MemoryStacks.EmptyIsOwned | src/Allocator.cpp:268-269 | with nothing handed out yet the ownership invariant holds |
| MemoryStacks.RunsKeepOwnership | src/Allocator.cpp:276-346 | in every run each block the host handed out is with one client, in the cache or given back, never two, and the cache stays ordered by free time |
| MemoryStacks.ServedExactly | src/Allocator.cpp:276-295 | after any run a request is served with a block nobody holds, of exactly the requested size |
| CombinedPolicies.StrideLoop | include/MetaObject/Detail/AllocatorImpl.hpp:627-644 | total, strides and failure of the loop over the dimensions, with wrap-around |
| CombinedPolicies.LayoutIsProduct | include/MetaObject/Detail/AllocatorImpl.hpp:627-644 | without given strides the total is the element size times all sizes and stride k the element size times the sizes after k, as size_t |
| CombinedPolicies.LayoutIsStrides | include/MetaObject/Detail/AllocatorImpl.hpp:627-644 | with given strides the loop succeeds if and only if each is at least the bytes behind it; given strides stay, each other one is the next stride times the next size, one element at the end, and the total is the first stride times the first size |
| CombinedPolicies.LayoutIsIdempotent | src/Allocator.cpp:429-446 | running the loop again on the strides it wrote gives the same strides and total |
| CombinedPolicies.SubAllocate | src/Allocator.cpp:426-466 | a sub-allocator records the total of its own loop |
| CombinedPolicies.CombinedAllocate | include/MetaObject/Detail/AllocatorImpl.hpp:621-652 | the small allocator made the buffer if and only if the recorded size, the loop's total, is below the threshold |
| CombinedPolicies.CombinedDeallocate | include/MetaObject/Detail/AllocatorImpl.hpp:662-672 | so deallocate, which routes by the recorded size in the same way, reaches the allocator that made the buffer |
| TimeBuffers.MapBuffer.UpdateData | include/MetaObject/Parameters/Buffers/detail/MapImpl.hpp:63-70 | one entry is written, all others kept |
| TimeBuffers.MapBuffer.GetData | include/MetaObject/Parameters/Buffers/detail/MapImpl.hpp:31-46 | the entry at the timestamp, or the latest for -1 |
| TimeBuffers.StreamBuffer.PruneStale | include/MetaObject/Parameters/Buffers/detail/StreamBufferImpl.hpp:45-62 | the erase-until-break loop filters the map by timestamp |
| TimeBuffers.StreamBuffer.GetDataPtr | include/MetaObject/Parameters/Buffers/detail/StreamBufferImpl.hpp:14-23 | for a read that nothing interrupts: what it returns, when it prunes, and that its entry survives exactly for -1 or padding >= 0 |
| TimeBuffers.StreamBuffer.GetData | include/MetaObject/Parameters/Buffers/detail/StreamBufferImpl.hpp:24-40 | what it returns and prunes; a read at -1 switches pruning off |
| StreamReads.VisibleIffNotPruned | include/MetaObject/Parameters/Buffers/detail/StreamBufferImpl.hpp:14-62 | in every interleaving an entry is visible if and only if it was written and, at every later prune, the read noted last was of -1 or of a timestamp at most the padding ahead; every such read had found an entry |
| StreamReads.CurrentIsLastRead | include/MetaObject/Parameters/Buffers/detail/StreamBufferImpl.hpp:14-40 | the current timestamp is that of the last read noted, which found an entry, or -1 |
| StreamReads.PointerValidIff | include/MetaObject/Parameters/Buffers/detail/StreamBufferImpl.hpp:14-62 | a pointer, of a timestamp or of the latest entry, stays valid if and only if every prune since follows a read, the last noted, that does not leave its entry behind |
| StreamReads.OwnPruneErasesIff | include/MetaObject/Parameters/Buffers/detail/StreamBufferImpl.hpp:14-62 | a read's own prune erases its own entry if and only if the read noted last before it was of a timestamp other than -1 and more than the padding ahead |
| StreamReads.OneReaderKeepsPointer | include/MetaObject/Parameters/Buffers/detail/StreamBufferImpl.hpp:14-62 | with one reader and any writers a returned pointer survives the read's own prune if and only if padding >= 0 or the read was of -1 |
| TimeBuffers.EntriesHoldLastWrites | include/MetaObject/Parameters/Buffers/detail/MapImpl.hpp:63-70 | in every run the Map holds for each timestamp the value of the last write to it, nothing else, and so does every visible entry of the stream buffer |
| TimeBuffers.StreamRefinesMap | include/MetaObject/Parameters/Buffers/detail/StreamBufferImpl.hpp:14-62 | visible entries hold the Map's value, and with padding >= 0 reads of the latest entry agree with the Map in every interleaving |
| TimeBuffers.OtherReaderPrunesMyEntry | include/MetaObject/Parameters/Buffers/detail/StreamBufferImpl.hpp:14-23 | a run of two readers in which a reader's own prune erases the entry its pointer refers to |
| BlockingProtocol.RunDeliversInOrder | include/MetaObject/Parameters/Buffers/detail/StreamBufferImpl.hpp:113-150 | in every interleaving at most size entries are stored and the values read are the first values written, in order, without loss |
| BlockingProtocol.StuckMeansDone | include/MetaObject/Parameters/Buffers/detail/StreamBufferImpl.hpp:113-150 | where no count blocks, a state without a next step has delivered everything |
| BlockingProtocol.RunsAreBounded | include/MetaObject/Parameters/Buffers/detail/StreamBufferImpl.hpp:113-150 | runs have bounded length, spurious wake-ups aside |
| BlockingProtocol.FullBufferNeverDrains | include/MetaObject/Parameters/Buffers/detail/StreamBufferImpl.hpp:117-147 | if the last size of the first w values lie within the padding of the w-th, no run ever writes or reads more than w values |
| BlockingProtocol.EveryEndDeliversIff | include/MetaObject/Parameters/Buffers/detail/StreamBufferImpl.hpp:113-150 | for every increasing stream, size and padding: every run that ends has delivered the whole stream if and only if there is no such w with more values to come |
| BlockingProtocol.ProgressIffRoomBeyondPadding | include/MetaObject/Parameters/Buffers/detail/StreamBufferImpl.hpp:113-150 | for a consecutive stream longer than the buffer this is exactly size > padding + 1 |
| BlockingProtocol.EveryRunDelivers | include/MetaObject/Parameters/Buffers/detail/StreamBufferImpl.hpp:113-150 | runs without spurious wake-ups take at most 8n + 1 steps, and end with everything delivered when size > padding + 1 or no count blocks |
| CircularBuffers.CircularBuffer.UpdateData | include/MetaObject/Parameters/Buffers/detail/CircularBufferImpl.hpp:79-86 | the buffer is the newest entries up to its capacity |
| CircularBuffers.CircularBuffer.GetData | include/MetaObject/Parameters/Buffers/detail/CircularBufferImpl.hpp:33-50 | the newest entry for -1, else the first entry with the timestamp |
| CircularBuffers.CircularBuffer.SetSize | include/MetaObject/Parameters/Buffers/detail/CircularBufferImpl.hpp:114-118 | shrinking keeps the oldest entries |
| CircularBuffers.UpdatesKeepWindow | include/MetaObject/Parameters/Buffers/detail/CircularBufferImpl.hpp:70-86 | after any number of updates the buffer is the newest part of the whole history |
| CircularBuffers.AgreesWithMap | include/MetaObject/Parameters/Buffers/detail/CircularBufferImpl.hpp:33-50 | with growing timestamps reads agree with the Map for -1 and from the oldest buffered timestamp on, and find nothing before it |
| CircularBuffers.ReadsAgreeIff | include/MetaObject/Parameters/Buffers/detail/CircularBufferImpl.hpp:33-50 | for given timestamps and capacity, reads agree with the Map for all values if and only if the timestamp was written exactly once since the oldest buffered entry or never, and for -1 if and only if the newest timestamp is the greatest |
| CircularBuffers.ResizedContents | include/MetaObject/Parameters/Buffers/detail/CircularBufferImpl.hpp:114-118 | the exact contents after a resize and any updates |
| CircularBuffers.ResizeKeepsWindowIff | include/MetaObject/Parameters/Buffers/detail/CircularBufferImpl.hpp:114-118 | for distinct entries, the buffer is the newest part of the history after a resize and any updates if and only if nothing was cut or the updates have filled it since |
| CircularBuffers.ShrinkingLosesNewest | include/MetaObject/Parameters/Buffers/detail/CircularBufferImpl.hpp:114-118 | otherwise the newest entry before the resize is gone though an older one is kept |
| Crc.TableIsStep8 | include/IObject.h:73-117 | every entry of the table is eight bit steps of its index |
| Crc.StepByTable | include/IObject.h:121-124 | one table step is eight bit steps of any register |
| Crc.CombineIsFeed | include/IObject.h:127-130 | combining a byte, sign extension included, feeds exactly that byte to the bitwise register |
| Crc.TemplateFormIsBitwise | include/IObject.h:132-143 | the template recursion is the bitwise register after bytes 0 to its index |
| Crc.ConstexprFormIsBitwise | include/IObject.h:145-148 | the constexpr recursion is the bitwise register after bytes 1 to its length |
| Crc.LiteralHashesAllButTerminator | include/IObject.h:169-173 | the literal form is the CRC-32 of section 8 of RFC 1952 of all bytes but the terminator |
| Crc.RangeHashesInside | include/IObject.h:175-178 | the range form is that CRC-32 of bytes 1 to n-2 |
| Crc.CheckValue | include/IObject.h:121-148 | the reference gives the CRC-32 check value for the nine digits |
| Crc.DelimiterFormsAgree | include/IObject.h:150-165 | the template and constexpr delimiter searches agree |
| Crc.FindDelimiter | include/IObject.h:162-165 | finds the last colon at or before its start, else 0 |
| Crc.HashStopsBeforeLastDelimiter | include/IObject.h:191-194 | hashClassName is the range form cut at the last colon, for every string with a colon |
| Crc.NoDelimiterHashesNothing | include/IObject.h:191-194 | without a colon the hash is 0 |
| Crc.HashIsCrcOfScope | include/IObject.h:191-194 | for scope::rest the hash is the CRC-32 of scope without its first byte, whatever the rest |
| Crc.FirstByteIsNeverHashed | include/IObject.h:191-194 | names that differ only in their first byte collide |
| TextVector.Serialize | include/MetaObject/Parameters/IO/TextPolicy.hpp:63-80 | the loop prints size, bracket and comma-separated elements; false without data |
| TextVector.DeSerialize | include/MetaObject/Parameters/IO/TextPolicy.hpp:81-103 | the outcome depends on the prefix, the elements on what follows it; nothing is stored on failure |
| TextVector.ReadItems | include/MetaObject/Parameters/IO/TextPolicy.hpp:93-99 | the extraction loop collects numbers until one fails |
| TextVector.ExtractPrinted | include/MetaObject/Parameters/IO/TextPolicy.hpp:74-95 | extracting a printed number in range gives it back and stops right after it |
| TextVector.NumeralIsPrinted | include/MetaObject/Parameters/IO/TextPolicy.hpp:68-74 | a numeral without leading zeros is the printed form of its value |
| TextVector.NoLeadingZero | include/MetaObject/Parameters/IO/TextPolicy.hpp:68-74 | no printed number but 0 begins with a zero |
| TextVector.ReadsElements | include/MetaObject/Parameters/IO/TextPolicy.hpp:69-99 | the printed elements of any vector in range read back as that vector |
| TextVector.ParseAnyPrefix | include/MetaObject/Parameters/IO/TextPolicy.hpp:87-99 | whatever the size prefix, or none, the elements read are the vector |
| TextVector.ReadsAnySpacing | include/MetaObject/Parameters/IO/TextPolicy.hpp:93-99 | elements with any white space around them and any separator behind each are read, up to the first text that is no number |
| TextVector.SizeOfSigned | include/MetaObject/Parameters/IO/TextPolicy.hpp:87-92 | a size may carry a sign; a minus sign wraps it |
| TextVector.RoundTrip | include/MetaObject/Parameters/IO/TextPolicy.hpp:63-103 | parsing the printed text of any vector in machine range gives the vector, if reserve can give its length |
| StandOut.MakeFunctionNameStandOut | src/logging/Logging.cpp:172-238 | the in-place backward loop, every index in range, computes the fold over what is left and what is done |
| StandOut.SpaceComma | src/logging/Logging.cpp:208-214 | one space less after a comma, two more between top-level arguments |
| StandOut.PlaceMarkers | src/logging/Logging.cpp:216-230 | the two markers around the name and the flags they set |
| StandOut.NameLength | src/logging/Logging.cpp:177-184 | the modifiers cut off are the longest tail of spaces and lower-case letters, none if that is all there is |
| NestedNames.NestingDecides | src/logging/Logging.cpp:172-233 | for every input the exact output, decided by the brackets right of each position: a comma is spread exactly in one pair of parentheses and no template brackets, right of the name; the name ends at the outermost bracket not behind template arguments and starts behind the last space, colon or '>' before it |
| StandOut.OnlySpacesChange | src/logging/Logging.cpp:172-238 | for every input, output and input are equal with spaces removed |
| StandOut.EachMarkerOnce | src/logging/Logging.cpp:188-230 | the end marker is placed at most once and never without an argument list, the start marker at most once, and the output's length is accounted for exactly by erased spaces, spread commas and markers |
| StandOut.PlainSignature | src/logging/Logging.cpp:172-238 | for a plain signature the exact output: the name between wider gaps, its arguments spread out, modifiers put back |
| NestedNames.NestedSignature | src/logging/Logging.cpp:172-233 | for arguments with template brackets to any depth the exact output: spread at the top level only, tightened within brackets |
| NestedNames.TemplateSignature | src/logging/Logging.cpp:172-233 | the same for a name with template arguments of its own, which stay outside the markers' name |
| InfoCollection.InfoVector.ListOwn | include/MetaObject/Parameters/detail/ParameterMacrosImpl.hpp:11-17 | the counter recursion adds exactly the class's own infos |
| InfoCollection.InfoVector.SortUnique | include/MetaObject/Detail/MetaObjectMacrosImpl.hpp:118-119 | sorting and deduplicating keeps exactly the elements, strictly increasing |
| InfoCollection.InfoVector.GetInfoStatic | include/MetaObject/Detail/MetaObjectMacrosImpl.hpp:113-126 | the shared vector ends strictly increasing and holds what it held, the class's infos and those of all its parents' calls |
| InfoCollection.AllEntriesAreInherited | include/MetaObject/Detail/MetaObjectMacrosImpl.hpp:224-235 | what is collected is exactly the infos of the class and of everything it derives from along any path |
| InfoCollection.ParentOrderIsIrrelevant | include/MetaObject/Detail/MetaObjectMacrosImpl.hpp:268-282 | the order and repetition of parents, at any level, changes nothing |
| InfoCollection.IncreasingListsAreEqual | include/MetaObject/Detail/MetaObjectMacrosImpl.hpp:118-119 | a strictly increasing list is determined by its elements, so the collected list is unique |

## Left out

- InterThread.ThreadQueues.Run: closures are recorded, not executed, so closures that push or purge are not modelled in the class; SignalProtocol models nested calls and leaves out closures that purge.
- MemoryBlocks.MemoryBlock.Allocate: addresses and sizes are unbounded naturals; only negative pointer differences wrap, sums beyond 64 bits do not occur.
- MemoryBlocks.IntendedRunsAreSafe: about gap minus offset, which the code does not compute; RunIsSafeIff is about the code.
- MemoryConservation.IntendedBytesAreConserved: about gap minus offset; BytesAreConserved and RoomFitsAlong are about the code.
- MemoryPools.PoolRunsAreSafe: about gap minus offset; PoolRunIsSafeIff is about the code.
- WrittenAllocator.RunIsSafeIff: requests smaller than one element are left to PlacedFreeIff; one that overwrites an entry leaves a valid map, so validity does not tell.
- SignalGraph.Signal.Emit: whether a call is made inline or queued is left to SignalProtocol.
- DeliveryCounts.EmissionCountsConnections: one void signature at a time, without slot destruction; a return-value signal keeps only its last relay, which Signal.ConnectRelay states.
- TimeBuffers.StreamBuffer.GetDataPtr: the read is one step here; StreamReads has the interleaved one.
- MemoryStacks.CpuMemoryStack.Allocate: the pointer-returning form reads an erased iterator and is not modelled.
- StandOut.MakeFunctionNameStandOut: the catch-all that returns the original name is not modelled; no index leaves its range, so only exhausted memory reaches it.
- TextVector.RoundTrip: signed integers only; elements of unsigned, character, string and floating-point type are not modelled.
- CircularBuffers.CircularBuffer.SetSize: a negative size, which converts to a huge capacity, is not modelled.
- BlockingProtocol.RunDeliversInOrder: one producer and one consumer, increasing timestamps other than -1 (which a read takes to mean the latest entry), size and padding >= 0; a negative size converts to a huge bound and never blocks.
- SignalSafety.DestroyedSlotIsNeverCalled: connects, disconnects and destruction of one slot come from one thread at a time; copy assignment between slots, which overwrites the relay list, is not modelled.
- Deadlock freedom of emission, queues and destructors: guards model blocking; SignalProgress claims progress only once the locks are free.
- The signal's own mutex: it only removes interleavings.
- The purge of entries tagged with a slot's parent object, and the purge of a ClassConnection.
- The notifier called after a push, the queue-overflow log line and the debug set of deleted objects.
- Return values of slots, the exception of an unconnected return-value signal, and Disconnect forms of signals by slot or without argument.
- Memory-usage counters and log output.
- The GPU pool and stack policies, pitched allocation and host memory calls.
- Input parameters, update callbacks, modified flags and the stored last timestamp of buffers.
- Text forms other than integer vectors, and the registry of serialization functions.
- Tooltip, description and serialization recursions of the class macros; std::sort and std::unique are functions.
- ThreadPool and thread main loops, registries, factories, plugins, Python, Qt, Wt and network code.
