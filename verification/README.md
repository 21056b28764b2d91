# Verification models of the hosted AROS sources

Dafny models of the parts of the repository whose correctness rests on invariants that
span several functions, with proofs of those invariants.

- **Memory** (`FreeList`, `Heap`, `Allocator`): the address-ordered first-fit allocator.
  `FreeList` and `Heap` say what the calls do to a list of free chunks; `Allocator` is the
  pointer code on linked chunks in memory, proved to do exactly that.
- **Kernel** (`Exec`, `RoundRobin`, `Kern`, `KernBooks`, `Signals`, `PingPong`, `Ports`, `Rpc`,
  `Squares`, `Device`; progress in `Turns`, `PingPongProgress`, `RpcProgress`, `RpcSlices`):
  the scheduler, Forbid/Permit, Wait/Signal, message ports and the demos on top. Timer ticks may fall between any two steps; each layer is a state machine
  whose invariant uses the invariant of the layer below. `Rpc` is the client/server loop
  with the two programs left open; `Squares` (the message-port demo) and `Device` (file
  I/O through `DoIO`) are instances of it. The progress modules say how many ticks bring how
  many rounds, and when none ever comes.
- **Audio ring** (`Ring`): the lock-free single-producer single-consumer ring, one step per
  shared access, with 32-bit counters that wrap.
- **Guest memory** (`GuestMemory`, `GuestList`, `Tree`, `GuestAvl`, `AvlCalls`): Exec lists
  and the AVL calls of the 68k bridge on flat big-endian bytes, refining sequences.
- **Library builder** (`GuestCode`, `GuestLib`, `GuestBuilder`): the AUTOINIT vector table
  and the InitStruct interpreter. `GuestStream` and `GuestImage` are the other direction: the
  bytes of a described library, and the proof that the builder makes just that library of them.
- **Readiness pump** (`Pump`, `PumpWake`): the registration table against the kernel filter
  set, and the latch-and-pipe wake.
- **Task storage** (`TaskTable`, `TaskStorage`): the flat table as a finite map, snapshots in
  guest memory.
- `Numbers` holds the little arithmetic they share.

Where the source updates fields or memory in place, so does a Dafny class, and its methods
are proved equal to functions on values; the lemmas about whole runs are about those
functions. `dafny verify dfyconfig.toml` checks everything.

## Properties that do not hold as stated

- **`Allocate` and the top 15 sizes.** `ROUNDUP` wraps for sizes above 2^64 - 16; the
  request becomes 0 bytes and a chunk that stays on the free list is handed out.
  `Heap.HandedOverIff` is the exact condition and `Heap.WrappedRequestExample` an input.
- **A `SAVE_STORAGE` that writes nothing.** It answers handle 0 for a task without entries and
  also when guest memory has run out; restoring 0 does nothing, so later changes stay.
  `TaskTable.HandleRoundTripIff` is the exact condition, `TaskTable.EmptySaveExample` and
  `TaskTable.FullMemoryExample` are inputs, and `TaskStorage.Storage.SaveCallsRestore` states
  it on the real table and guest memory with any calls between save and restore.
- **A worker that waits again without a short drain** can sleep on readiness that is already
  stashed. `PumpWake.SleepsIff` says exactly when, and `PumpWake.ShortWorkerSleeps` is a run
  from creation that ends so. A worker that insists on the short drain never does.
- **An AVL tree of exactly 65536 nodes** still accepts one more, and then no call that
  collects the nodes succeeds. `AvlCalls.AddThenRemove` is the exact condition, and
  `AvlCalls.AddThenRemoveExample` builds such a tree.
- **A keyed AVL search whose callback subtracts 32-bit words** finds its place only if the
  wrap does not turn the order round. `AvlCalls.KeyCallbackSplits` is the exact condition and
  `AvlCalls.FarKeyExample` an input.
- **The device demo's re-read of its file** fails when the last tick falls between the write of
  a pattern and its verification, though nothing went wrong. `Device.MatchIff` is the exact
  condition and `Device.MismatchRun` a run.
- **The demos get on** only if the task that never blocks is no more urgent than the two that
  do. Then `PingPongProgress.CountsFromStart` and `RpcProgress.RoundsFromStart` bound the ticks
  a count or a round may cost; otherwise `PingPongProgress.BusyStarves` and
  `RpcProgress.BusyStarves` say that all but the first count, and every round, never comes.

## Model

| member | source | states |
|---|---|---|
| FreeList.RoundUpExact | hosted/mem.c:47 | `ROUNDUP` is the least multiple of 16 not below the size, unless it wraps |
| FreeList.CanonicalUnique | hosted/mem.c:188-198 | two ascending, aligned, never-adjacent chunk lists that cover the same bytes are the same list |
| FreeList.PickUnique | hosted/mem.c:64-72 | the chunk chosen is the lowest that fits, the highest under MEMF_REVERSE, and is determined by that |
| FreeList.CarveCovers | hosted/mem.c:76-89 | splitting or unlinking takes exactly the carved bytes off the free list |
| FreeList.CarveCanonical | hosted/mem.c:76-89 | the list stays canonical after a split or an exact fit |
| FreeList.CarveSum | hosted/mem.c:89 | `mh_Free` falls by exactly the bytes taken |
| FreeList.OverlapsCovers | hosted/mem.c:119-136 | a block overlaps a chunk exactly when some byte of it is already free |
| FreeList.ReleaseCorrect | hosted/mem.c:95-154 | releasing a block keeps the list canonical, frees exactly the block's bytes and adds their number to the sum |
| FreeList.ReleaseUndoesCarve | hosted/mem.c:76-154 | releasing what was carved gives back the identical list |
| FreeList.BlockIsUnits | hosted/mem.c:95-103 | the block given back is exactly the 16-byte units that the bytes at any address and size lie in |
| Heap.AllocNullIff | hosted/mem.c:51-93 | NULL for a nonzero size exactly when no single free chunk is large enough, and then nothing changed |
| Heap.AllocTakes | hosted/mem.c:64-92 | a success is the front of the lowest (reversed: highest) fitting chunk |
| Heap.HandedOverIff | hosted/mem.c:47-92 | the bytes returned have left the free list exactly when the size did not wrap in `ROUNDUP` |
| Heap.WrappedRequestExample | hosted/mem.c:55-92 | the wrapped request on a 32-byte heap: a chunk is returned and stays free |
| Heap.FreeRefusesIff | hosted/mem.c:96-154 | `Deallocate` refuses exactly blocks with a byte already free and then changes nothing; otherwise it frees exactly the block |
| Heap.NothingToFree | hosted/mem.c:98-99 | NULL or a zero size is accepted and changes nothing |
| Heap.FreeUndoesAlloc | hosted/mem.c:51-154 | freeing what was just allocated restores the identical free list |
| Heap.InitialTiles | hosted/mem.c:156-170 | `mh_Init` makes one chunk that tiles the region |
| Heap.AllocKeeps | hosted/mem.c:51-93 | an allocation keeps free chunks and live blocks a tiling of the region |
| Heap.FreeKeeps | hosted/mem.c:96-154 | so does freeing a live block |
| Heap.LiveBlockIsAccepted | hosted/mem.c:119-136 | a live block is never taken for a double free |
| Heap.RunKeeps | hosted/mem.c:51-154 | along every run of valid calls the free list is the maximal-interval decomposition of the free bytes and every byte is free or in one live block |
| Heap.AllFreedIsInitial | hosted/mem.c:231-262 | freeing every live block, in any order, ends in the single chunk of `mh_Init` |
| Allocator.MemHeader.constructor | hosted/mem.c:156-170 | `mh_Init` on memory: links, sizes and `mh_Free` describe the one chunk |
| Allocator.MemHeader.Search | hosted/mem.c:59-72 | the pointer walk ends at the link in front of the chosen chunk |
| Allocator.MemHeader.Take | hosted/mem.c:76-89 | relinking for a split or exact fit yields the carved list and writes only free bytes |
| Allocator.MemHeader.Allocate | hosted/mem.c:51-93 | the whole call equals `Heap.Alloc`, clears the block under MEMF_CLEAR and leaves every other allocated byte alone |
| Allocator.MemHeader.Walk | hosted/mem.c:118-129 | the do-while walk stops at the first chunk at or above the block |
| Allocator.MemHeader.Coalesce | hosted/mem.c:131-151 | the two-sided merge writes exactly the links of the released list |
| Allocator.MemHeader.Deallocate | hosted/mem.c:96-154 | the whole call equals `Heap.Free` and writes only bytes that are free afterwards |
| Allocator.MemHeader.ChunkCount | hosted/mem.c:178-182 | counts the chunks of the list |
| Allocator.MemHeader.FreeSum | hosted/mem.c:183-187 | adds up to `mh_Free` |
| Allocator.FreelistSane | hosted/mem.c:189-198 | answers whether the walk finds the list in bounds, ordered and disjoint |
| Allocator.CanonicalIsSane | hosted/mem.c:188-198 | every valid heap passes the sanity walk |
| Exec.EnqueuedIsStable | hosted/exec.c:58-68 | `Enqueue` keeps priority order and puts the newcomer behind its equals, before the first lower |
| Exec.ExecBase.FindSlot | hosted/exec.c:60-63 | the walk finds that place |
| Exec.ExecBase.EnqueueReady | hosted/exec.c:60-68 | TaskReady becomes the list with the task inserted there |
| Exec.ExecBase.CoreSwitch | hosted/exec.c:148-164 | the running task goes back in by priority, is parked if off its stack, is left alone if blocked; the boot task is never listed |
| Exec.ExecBase.CoreDispatch | hosted/exec.c:166-176 | the head of TaskReady becomes current and running |
| Exec.ExecBase.OnAlarm | hosted/kern.c:183-214 | one tick: armed, initialised, forbidden, out of ticks, or a switch |
| Exec.ExecBase.BlockThis | hosted/signal.c:121-123 | the blocking half of `Wait`: mask, state and TaskWait |
| Exec.ExecBase.PostTo | hosted/signal.c:141-146 | the body of `Signal`: bits, and the move from TaskWait to TaskReady if one was awaited |
| Exec.ExitInterruptKeeps | hosted/exec.c:142-201 | a switching tick keeps the lists sound and dispatches a task of maximal priority among the runnable |
| Exec.AlarmKeeps | hosted/kern.c:183-214 | every tick keeps the lists sound and displaces nobody while the forbid count is positive |
| Exec.AlarmStops | hosted/kern.c:183-214 | a tick turns the scheduler off exactly when it is armed, initialised, past the limit and finds the count at 0; then the boot task is back and no task or list has moved |
| Exec.OffStackParks | hosted/exec.c:156-164 | a switch away from a task off its stack leaves it in the wait state and on no ready list |
| Exec.ParkedForEver | hosted/exec.c:148-201 | a parked task is never dispatched again, whatever later ticks find |
| Exec.BlockKeeps | hosted/signal.c:120-125 | blocking keeps each task on the list its state names |
| Exec.PostKeeps | hosted/signal.c:139-148 | posting does too, waking or not |
| RoundRobin.InitialSound | hosted/exec.c:121-135 | after the spawns TaskReady holds every task once, in priority order |
| RoundRobin.TickTurns | hosted/exec.c:142-201 | one tick turns the ring of top-priority tasks by one |
| RoundRobin.ScheduleIs | hosted/exec.c:203-258 | the task running after tick n is entry (n - 2) modulo k of the k top tasks in creation order |
| RoundRobin.EachOncePerRound | hosted/exec.c:285-287 | any k consecutive ticks run each top-priority task exactly once |
| RoundRobin.LowerStarves | hosted/exec.c:288 | a task below the top priority is never dispatched |
| RoundRobin.OnUpToLimit | hosted/exec.c:216-234 | after n ticks the scheduler is on exactly for n below the limit, and off it has the boot task running |
| RoundRobin.FrozenAtLimit | hosted/exec.c:216-234 | from the limit on nothing changes but the tick count |
| Kern.MovedSched | hosted/kern.c:127-131 | with `forbid_cnt++`/`--` as load and store, count, holder and torn list stay in step |
| Kern.SwitchFindsHeapWhole | hosted/kern.c:203-213 | a tick past the handler's guards, whether it shuts down or switches, even back to the same task, finds nobody holding and the free list whole and canonical |
| Kern.OtherTicksTouchNothing | hosted/kern.c:183-208 | any other tick leaves tasks, lists and the running task alone |
| Kern.AllocateSpares | hosted/kern.c:64-80 | what `Allocate` leaves of memory agrees with what was there on every byte of every live block |
| Kern.DeallocateSpares | hosted/kern.c:81-99 | what `Deallocate` leaves agrees on every byte of every live block but the one freed |
| Kern.OneInAllocator | hosted/kern.c:119-131 | a task inside the allocator is the running one, and nobody else holds |
| Kern.NeverStuck | hosted/kern.c:220-235 | the running worker can always step, and frees only a block it holds |
| Kern.MarksSurvive | hosted/kern.c:220-235 | under every schedule every verified round is good: rounds minus good minus refused allocations is 0 or 1 |
| KernBooks.StopsAt | hosted/kern.c:200-211 | a run that ends with the scheduler off was stopped by the first tick at or after the limit that found the count at 0, and has only counted ticks since |
| KernBooks.BooksBalance | hosted/kern.c:281-298 | at any moment the live blocks are those of the start and those in workers' hands, and the free bytes are those of the start less 256 for each block in hand |
| KernBooks.AllBackIsStart | hosted/kern.c:296-298 | once no worker holds a block the heap is the one the run started with |
| KernBooks.RefusedIff | hosted/kern.c:220-235 | a worker gets no block exactly when no free chunk holds one |
| Signals.StepKeeps | hosted/signal.c:90-148 | each tick and each step of `Wait`, `Signal`, `Forbid`, `Permit` keeps the invariant |
| Signals.RunKeeps | hosted/signal.c:90-148 | so does every run of any programs under any schedule |
| Signals.EachWhereItsStateSays | hosted/signal.c:71-85 | every worker is current, on TaskReady or on TaskWait as its state says, and a waiting one has no awaited bit pending |
| Signals.WaitReturns | hosted/signal.c:131-136 | `Wait` returns the pending bits of its mask, at least one, and clears exactly those |
| Signals.BitsConserved | hosted/signal.c:117-148 | a bit is pending after a step exactly if it was just posted, or was pending and not taken by its owner's `Wait` |
| PingPong.LockStep | hosted/signal.c:150-160 | in every reachable state one token is out, the counts differ by at most 1, and the two are never both blocked |
| PingPong.NeverStuck | hosted/signal.c:155-163 | the running task always has a next step |
| Turns.TickTurns | hosted/signal.c:71-113 | a tick dispatches nobody blocked, and takes the processor from the busy task |
| Turns.TickStarves | hosted/signal.c:71-113 | no tick dispatches a task less urgent than the busy one |
| PingPongProgress.CountsGoOn | hosted/signal.c:150-163 | from any reachable running state, under every schedule in which a tick is followed by a step, a count costs at most 60 ticks |
| PingPongProgress.CountsFromStart | hosted/signal.c:177-205 | the same from the start, for a busy task no more urgent than the two |
| PingPongProgress.CountsAreReached | hosted/signal.c:177-205 | such a schedule exists for any number of counts |
| PingPongProgress.BusyStarves | hosted/signal.c:150-163 | with a more urgent busy task there is at most one count in any run |
| Ports.StepKeepsPorts | hosted/msgport.c:107-165 | each step of `PutMsg`, `WaitPort`, `GetMsg` keeps the port invariant, for any tasks and ports |
| Ports.RunKeepsPorts | hosted/msgport.c:107-165 | so does every run under every schedule |
| Ports.NoLostWakeup | hosted/msgport.c:147-164 | a message queued while the port's owner is blocked in `WaitPort`, on a bit of its own or shared, has a sender between `AddTail` and the post in `Signal` |
| Ports.BitTellsPort | hosted/msgport.c:142-164 | the owner is blocked in `WaitPort` exactly when it waits on the port's bit, for a port that shares its bit with no other of that owner |
| Ports.WaitPortReturns | hosted/msgport.c:160-164 | over every run, whatever bits are pending, `WaitPort` returns with its queue not empty and with the head, which stays the head until someone takes it |
| Ports.HeadStays | hosted/msgport.c:147-164 | while nobody takes from a port, its head stays its head |
| Ports.StaleBitRechecks | hosted/msgport.c:160-164 | over every run in which nothing is linked into the empty queue, no pending bit lets the owner out of `WaitPort` |
| Ports.Fifo | hosted/msgport.c:147-159 | at every port, what was linked is what was unlinked followed by the queue |
| Ports.PutMsgLinks | hosted/msgport.c:147-153 | over every run a `PutMsg` past its link has appended exactly its message to exactly its queue |
| Ports.GetMsgTakes | hosted/msgport.c:154-159 | over every run a `GetMsg` past its look has taken the head, or found the queue empty |
| Ports.ReturnStep | hosted/msgport.c:154-159 | and returns just what it found |
| Ports.ProceedsWhenBusy | hosted/msgport.c:107-165 | a task inside a call can always take its next step |
| Rpc.NotBothBlocked | hosted/msgport.c:175-203 | client and server are never blocked at once |
| Rpc.DoKeeps | hosted/msgport.c:175-203 | each step keeps the request in one place and the data those of the sequential program |
| Rpc.Sequential | hosted/msgport.c:175-203 | in every reachable state: one place for the request, no deadlock, and the data of the sequential loop |
| Rpc.NeverStuck | hosted/msgport.c:175-203 | the running task always has a next step |
| RpcProgress.GoComesNearer | hosted/msgport.c:107-203 | each step of a client or server that is not blocked ends the round or lowers the measure, spurious wakeups included |
| RpcProgress.RoundsGoOn | hosted/msgport.c:107-203 | from any reachable running state, under every schedule in which a tick is followed by a step, the ticks per round are bounded |
| RpcProgress.RoundsFromStart | hosted/msgport.c:217-245 | the same from the start, for an idle task no more urgent than client and server |
| RpcProgress.RoundsAreReached | hosted/msgport.c:217-245 | such a schedule exists for every number of rounds |
| RpcProgress.BusyStarves | hosted/msgport.c:175-204 | with a more urgent third task no round ever ends |
| RpcSlices.LongSliceBlocks | hosted/msgport.c:107-203 | a client or server left alone for long enough ends blocked in `Wait`, at most one round later |
| RpcSlices.RoundsPerSlice | hosted/msgport.c:107-203 | from any state in which a slice has ended, every round costs at most four long slices |
| RpcSlices.LongSlicesFromStart | hosted/msgport.c:217-245 | from the start, n long slices bring at least (n - 8) / 4 rounds |
| Squares.StepsAre | hosted/msgport.c:181-201 | the counters at every point of a round, in closed form, whatever the server answers |
| Squares.ErrorsAreWrongReplies | hosted/msgport.c:175-203 | for any server and schedule `g_errors` is exactly the number of replies that are not the square |
| Squares.NoWrongReply | hosted/msgport.c:175-203 | `g_errors` is 0 and `g_served - g_rounds` is 0 or 1 in every reachable state |
| Squares.RightReplies | hosted/msgport.c:175-203 | under every paced schedule at most 7680 ticks pass per right reply, and there is no wrong one |
| Squares.EnoughRoundTrips | hosted/msgport.c:239-247 | at the limit of 500 ticks at least 123 round trips, hence the 20 the demo asks for, and no wrong reply, when each dispatched slice holds 15360 steps |
| Device.TransferHolds | hosted/device.c:171-177 | a full `pwrite` leaves the buffer at the front of the file, and a full `pread` after it brings the same bytes |
| Device.TransferMoves | hosted/device.c:164-190 | a transfer moves the bytes the system allows, byte by byte from offset 0, and reports how many |
| Device.ReplyIsJudged | hosted/device.c:198-218 | a failed call is an error, a full write is not, and a full read is one exactly when some byte differs |
| Device.ErrorsAreShortTransfers | hosted/device.c:164-218 | each `DoIO` is one transfer of the sequential program, and `g_errors` counts exactly the transfers that fell short |
| Device.ShortTransferIsCounted | hosted/device.c:205-216 | when the first transfer falls short, every reachable state with one reply counts one error |
| Device.ShortRound | hosted/device.c:205-209 | one round over such a transfer ends with one error |
| Device.ShortTransferRun | hosted/device.c:164-218 | a run exists that has one reply over a short first transfer and counts one error |
| Device.MatchIff | hosted/device.c:262-273 | with whole transfers, at any stop, the re-read of the file matches the last verified pattern exactly when a round has been verified and the next pattern is not yet written |
| Device.MismatchRun | hosted/device.c:262-273 | a run that stops after the second round's write: one round, no error, and the re-read does not match |
| Device.EnoughRounds | hosted/device.c:255-266 | at the limit of 500 ticks at least 61 write-read rounds, hence the 20 the demo asks for, and no error, when transfers are whole and slices hold 14080 steps |
| Ring.NextPow2 | hosted/coreaudio/coreaudio_shim.c:89-94 | the least power of two that is at least 2 and at least n |
| Ring.CapDividesWrap | hosted/coreaudio/coreaudio_shim.c:103-105 | every ring size divides 2^32 |
| Ring.WrapIndexIff | hosted/coreaudio/coreaudio_shim.c:159 | masking a wrapped counter is masking the true one exactly when the size divides 2^32 |
| Ring.SizedTransfer | hosted/coreaudio/coreaudio_shim.c:346-352 | from a stale head the producer computes the free frames as of that snapshot |
| Ring.CopyHitsFreeSlot | hosted/coreaudio/coreaudio_shim.c:354-359 | no slot holding an unreleased frame is overwritten |
| Ring.StepKeeps | hosted/coreaudio/coreaudio_shim.c:148-174 | each load, slot copy and publication of either side keeps the invariant |
| Ring.RunKeeps | hosted/coreaudio/coreaudio_shim.c:343-370 | so does every interleaving |
| Ring.TakenIsPrefix | hosted/coreaudio/coreaudio_shim.c:148-174 | the frames taken are a prefix of the frames accepted and at most cap - 1 are unreleased |
| Ring.RenderSizes | hosted/coreaudio/coreaudio_shim.c:150-153 | a render sizes its transfer to what is published then, up to what it wants |
| Ring.PushSizes | hosted/coreaudio/coreaudio_shim.c:346-352 | a push sizes its transfer to what is free by its snapshot, up to what it was given |
| Ring.RenderCall | hosted/coreaudio/coreaudio_shim.c:148-174 | a whole render, with anything of the producer's in between, hands out and releases exactly that many of the oldest frames |
| Ring.PushCall | hosted/coreaudio/coreaudio_shim.c:343-370 | a whole push, with anything of the consumer's in between, publishes exactly that many frames from the front |
| Ring.RenderRuns | hosted/coreaudio/coreaudio_shim.c:148-174 | from any state between renders a render can run to its end |
| Ring.PushRuns | hosted/coreaudio/coreaudio_shim.c:343-370 | and so can a push |
| Ring.SpaceIs | hosted/coreaudio/coreaudio_shim.c:335-341 | `ca_ring_space` with fresh counters is the number of free frames |
| Ring.SpaceIsSafe | hosted/coreaudio/coreaudio_shim.c:335-341 | from a stale snapshot it never promises more than there is until the next push |
| Ring.Context.constructor | hosted/coreaudio/coreaudio_shim.c:98-110 | `ca_open` makes an empty valid ring of at least the frames asked for |
| Ring.Context.Push | hosted/coreaudio/coreaudio_shim.c:343-370 | accepts as many frames as fit, from the front |
| Ring.Context.CopyOut | hosted/coreaudio/coreaudio_shim.c:157-163 | the drain loop copies out the next frames in order |
| Ring.Context.Render | hosted/coreaudio/coreaudio_shim.c:135-178 | the oldest frames in order, then silence, and an underrun when too few were there |
| GuestMemory.Arena.Read32 | hosted/emu68k/emu68k_host.c:541-548 | the word at an address, 0 outside the arena |
| GuestMemory.Arena.Write32 | hosted/emu68k/emu68k_host.c:549-556 | stores the word, changes no disjoint word and no other byte, ignores an address outside |
| GuestMemory.WordOrder | hosted/emu68k/guestlib68k.c:19-36 | loads and stores have the most significant byte first |
| GuestList.InsertRefines | hosted/emu68k/emu68k_exec.c:701-718 | the four link stores insert into the sequence |
| GuestList.RemoveRefines | hosted/emu68k/emu68k_exec.c:719-725 | the two link stores delete from it |
| GuestList.ContentsUnique | hosted/emu68k/emu68k_exec.c:696-700 | the words in memory determine the list's contents |
| GuestList.NewMinList | hosted/emu68k/emu68k_exec.c:1164-1171 | an empty list; a NULL header is ignored |
| GuestList.AddHead | hosted/emu68k/emu68k_exec.c:701-709 | prepends and changes no other byte |
| GuestList.AddTail | hosted/emu68k/emu68k_exec.c:710-718 | appends and changes no other byte |
| GuestList.InsertAfter | hosted/emu68k/emu68k_exec.c:1144-1163 | inserts after the given node, or at the head for NULL or the header |
| GuestList.Remove | hosted/emu68k/emu68k_exec.c:719-725 | deletes the node and changes no other byte |
| GuestList.RemHead | hosted/emu68k/emu68k_exec.c:807-828 | takes the first node, 0 from an empty list, an error for a head that points at its own header |
| GuestList.RemTail | hosted/emu68k/emu68k_exec.c:829-838 | takes the last node, 0 from an empty list |
| GuestList.FindLower | hosted/emu68k/emu68k_exec.c:844-849 | the walk ends at the first node of lower signed priority |
| GuestList.SignedOrder | hosted/emu68k/emu68k_exec.c:843-847 | priority bytes 0x80 to 0xFF are below 0x00 to 0x7F, and within each half the order is that of the bytes |
| GuestList.EnqueueOnBytes | hosted/emu68k/emu68k_exec.c:839-857 | on the bytes: the place is behind every byte that is not below the node's and in front of one that is |
| GuestList.Enqueue | hosted/emu68k/emu68k_exec.c:839-857 | inserts there, changes no other byte, keeps every node's priority, and leaves a descending list in memory descending |
| GuestList.EnqueueIsStable | hosted/emu68k/emu68k_exec.c:839-857 | an insertion there keeps descending priorities descending, behind its equals and in front of everything lower |
| Tree.BuildInOrder | hosted/emu68k/emu68k_exec.c:217-235 | the rebuilt tree lists the nodes in the given order |
| Tree.LevelsIsLog | hosted/emu68k/emu68k_exec.c:221-234 | its height is floor(log2 n) + 1 |
| Tree.BuildBalanced | hosted/emu68k/emu68k_exec.c:221-234 | everywhere right height minus left height is -1 or 0, and the height depends on the count alone |
| Tree.PlugInOrder | hosted/emu68k/emu68k_exec.c:112-129 | a path from the root splits the in-order sequence around the subtree it ends at |
| Tree.ExtremeIsEnd | hosted/emu68k/emu68k_exec.c:78-97 | following one side ends at the first or last node in order |
| GuestAvl.RebuildRange | hosted/emu68k/emu68k_exec.c:217-235 | writes the balanced tree over the nodes with consistent parents and stored balances, and changes only those nodes |
| GuestAvl.ExtremeNode | hosted/emu68k/emu68k_exec.c:78-97 | the end of one side; gives up only above the step limit |
| GuestAvl.Climb | hosted/emu68k/emu68k_exec.c:112-129 | the ancestor next in order, or 0 |
| GuestAvl.AdjacentNode | hosted/emu68k/emu68k_exec.c:99-130 | the in-order neighbour of a node, 0 at the end |
| GuestAvl.FindEnd | hosted/emu68k/emu68k_exec.c:2197-2204 | first or last node of the tree |
| GuestAvl.Neighbour | hosted/emu68k/emu68k_exec.c:2205-2212 | by address: the next or previous entry of the in-order sequence |
| GuestAvl.Collect | hosted/emu68k/emu68k_exec.c:176-215 | returns the in-order sequence, and fails exactly above 65536 nodes |
| AvlCalls.RebuildAll | hosted/emu68k/emu68k_exec.c:237-242 | after `avl_rebuild` the root pointer leads to a linked, balanced tree whose in-order sequence is the list, and no other word changed |
| AvlCalls.RebuildThenCollect | hosted/emu68k/emu68k_exec.c:176-242 | collecting from a rebuilt tree of up to 65536 nodes gives the same list back |
| AvlCalls.SortedSplits | hosted/emu68k/emu68k_exec.c:132-150 | a node callback that is a total order splits the sequence it sorts into below, equal and above, for every node |
| AvlCalls.KeyCallbackSplits | hosted/emu68k/emu68k_exec.c:132-150 | a key callback that subtracts the key from a field ascending along the tree, as an `int32_t`, splits the sequence exactly when every difference fits or the wrap puts all nodes on one side |
| AvlCalls.FarKeyExample | hosted/emu68k/emu68k_exec.c:132-150 | two fields and a far key whose differences are positive and then negative |
| AvlCalls.EqualIsLinearScan | hosted/emu68k/emu68k_exec.c:2131-2143 | with a callback that splits the sequence, at most one node is equal to the key and it is the one a linear scan finds |
| AvlCalls.AddedSorted | hosted/emu68k/emu68k_exec.c:2131-2155 | adding keeps the sequence sorted and free of equals, and adds that node only |
| AvlCalls.WithoutSorted | hosted/emu68k/emu68k_exec.c:2171-2187 | removing keeps it sorted |
| AvlCalls.RemoveUndoesAdd | hosted/emu68k/emu68k_exec.c:2121-2196 | removing a node just added gives the sequence back |
| AvlCalls.Scan | hosted/emu68k/emu68k_exec.c:2131-2143 | the scan stops at the sorted place and says whether an equal node stands there |
| AvlCalls.AddNode | hosted/emu68k/emu68k_exec.c:2121-2159 | adds at the sorted place, or returns the equal node with memory unchanged; fails exactly above the node limit |
| AvlCalls.Delete | hosted/emu68k/emu68k_exec.c:2184-2192 | deletes that node, rebuilds, and zeroes its links |
| AvlCalls.RemoveByKey | hosted/emu68k/emu68k_exec.c:2160-2196 | deletes exactly the first node the callback calls equal to the key, or changes nothing |
| AvlCalls.AddThenRemove | hosted/emu68k/emu68k_exec.c:2121-2196 | adding a new node and removing it gives the sequence back, and fails exactly on a tree of 65536 nodes, which the add leaves with one more |
| AvlCalls.AddThenRemoveExample | hosted/emu68k/emu68k_exec.c:2121-2196 | on a row of n nodes sorted by address, adding one and removing it fails exactly for n = 65536 |
| AvlCalls.RemoveByAddress | hosted/emu68k/emu68k_exec.c:2160-2196 | deletes exactly that node, or changes nothing |
| AvlCalls.FoundIsBound | hosted/emu68k/emu68k_exec.c:2213-2241 | with a callback that splits the sequence, previous-by-key is the last node not above the key and next-by-key the first not below |
| AvlCalls.Find | hosted/emu68k/emu68k_exec.c:2213-2241 | the walk down the tree finds those for any callback that splits the tree's sequence for this key |
| GuestCode.InterpConfined | hosted/emu68k/guestlib68k.c:148-198 | whatever the stream holds, the interpreter ends and writes nothing outside the positive area |
| GuestCode.RepeatedItem | hosted/emu68k/guestlib68k.c:178-183 | a repeat command puts the source item at every position |
| GuestCode.SpanMeans | hosted/emu68k/guestlib68k.c:38-49 | a range spans exactly when every address of it is in one and the same hunk, of code if asked |
| GuestStream.StreamExample | hosted/emu68k/guestlib68k.c:148-198 | the bytes of the stream that stores one longword at offset 32 |
| GuestStream.OneLongword | hosted/emu68k/guestlib68k.c:155-158 | a single longword behind the last store has no command: its byte would be the end mark |
| GuestStream.StreamStores | hosted/emu68k/guestlib68k.c:148-198 | on any assembled list of stores, with all widths, counts and forms, the interpreter succeeds exactly when all fit and there are fewer than 4096, and then has performed them in order |
| GuestStream.StoredAt | hosted/emu68k/guestlib68k.c:178-187 | a store leaves item j at its address plus j widths |
| GuestStream.StoredItem | hosted/emu68k/guestlib68k.c:148-198 | after the whole stream each item is where its store put it, unless a later store wrote there |
| GuestBuilder.SpanLoop | hosted/emu68k/guestlib68k.c:38-49 | `segment_span` says whether the range lies in one hunk, of code if asked |
| GuestBuilder.Builder.AllocZero | hosted/emu68k/guestlib68k.c:137-146 | an even zeroed region at the cursor, or 0 with nothing changed exactly when it does not fit |
| GuestBuilder.Builder.Fetch | hosted/emu68k/guestlib68k.c:155-189 | decodes one command, and rejects it exactly when stream or target leave their bounds |
| GuestBuilder.Builder.ApplyInitStruct | hosted/emu68k/guestlib68k.c:148-198 | the loop leaves the verdict and the memory of the interpreter function |
| GuestBuilder.Builder.ScanTable | hosted/emu68k/guestlib68k.c:231-248 | finds the number of entries before the end mark, or that no table of allowed size ends |
| GuestBuilder.Builder.CheckTargets | hosted/emu68k/guestlib68k.c:254-272 | accepts exactly tables whose entries are zero or lead to code |
| GuestBuilder.Builder.WriteVectors | hosted/emu68k/guestlib68k.c:281-297 | writes one six-byte vector per entry below the base |
| GuestBuilder.Builder.Construct | hosted/emu68k/guestlib68k.c:274-304 | builds the region; a failed InitStruct takes the allocation back and leaves every byte of it zero, a region that does not fit changes nothing |
| GuestBuilder.Builder.PrepareInit | hosted/emu68k/guestlib68k.c:200-317 | succeeds exactly for a well-formed table that fits and whose InitStruct ends, and then leaves the finished library; a failure keeps the cursor, zeroes the region if it was built, and changes no other byte |
| GuestBuilder.FinishedVector | hosted/emu68k/guestlib68k.c:254-297 | after a success vector i at base - 6(i + 1) is a JMP to its code target, or three ILLEGAL words for a zero entry |
| GuestBuilder.FinishedFrame | hosted/emu68k/guestlib68k.c:274-315 | and no byte outside the new region changed |
| GuestImage.TableExample | hosted/emu68k/guestlib68k.c:231-238 | the bytes of a table of three displacements |
| GuestImage.DisplacementReads | hosted/emu68k/guestlib68k.c:256-262 | a displacement is the signed 16-bit distance from the table, added modulo 2^32 |
| GuestImage.TableReads | hosted/emu68k/guestlib68k.c:230-272 | an assembled table of either kind is read with all its vectors, and accepted exactly when it has 1 to 2047 of them and they lead to code or are reserved |
| GuestImage.LibraryReady | hosted/emu68k/guestlib68k.c:200-304 | a described library is accepted exactly when sizes, pointers, vectors, stores and memory are in bounds |
| GuestImage.LibraryBuilt | hosted/emu68k/guestlib68k.c:274-315 | what is built is the vectors, then the stores, then the Library fields |
| GuestImage.VectorLeads | hosted/emu68k/guestlib68k.c:281-297 | vector k leads to the k-th address described, or traps if that is reserved |
| GuestLib.VectorReads | hosted/emu68k/guestlib68k.c:289-296 | a vector reads as opcode 4EF9 and its target, or as 4AFC three times |
| GuestLib.IdentityReads | hosted/emu68k/guestlib68k.c:306-314 | the Library fields read back as type, name, flags, both sizes, version, revision and id string |
| GuestLib.VectorsStand | hosted/emu68k/guestlib68k.c:281-314 | InitStruct and the identity fields leave the vectors as written |
| GuestLib.FailureLeavesZero | hosted/emu68k/guestlib68k.c:298-304 | clearing after a failed InitStruct leaves what a bare allocation would have |
| Pump.Table.FindRegLoop | hosted/bsdsocket/bsdsock_pump.c:184-190 | the first live slot of this fd and target, or none |
| Pump.Table.FindOwnerLoop | hosted/bsdsocket/bsdsock_pump.c:200-205 | the first live slot of this fd, or none |
| Pump.Table.Register | hosted/bsdsocket/bsdsock_pump.c:333-358 | updates the caller's own slot or takes a free one with its filters, or answers -1 with nothing changed |
| Pump.Table.Unregister | hosted/bsdsocket/bsdsock_pump.c:360-375 | clears the caller's own slot and filters, or changes nothing |
| Pump.Table.Drain | hosted/bsdsocket/bsdsock_pump.c:377-392 | reports the first ready slots of the target in slot order with their stash, and consumes just those |
| Pump.RegisterAgrees | hosted/bsdsocket/bsdsock_pump.c:333-358 | registering keeps table and filters in agreement |
| Pump.UnregisterAgrees | hosted/bsdsocket/bsdsock_pump.c:360-375 | so does unregistering |
| Pump.RegisterStores | hosted/bsdsocket/bsdsock_pump.c:333-358 | an accepted registration leaves the slot wanting what was asked for this fd and target, exactly those filters of the fd enabled on that slot, and nothing else changed |
| Pump.UnregisterClears | hosted/bsdsocket/bsdsock_pump.c:360-375 | an accepted unregistration frees the slot, leaves no filter of the fd, and changes nothing else |
| Pump.StashStores | hosted/bsdsocket/bsdsock_pump.c:262-276 | an event adds its direction to the stash of the slot its filter names; a stale one changes nothing |
| Pump.DrainInOrder | hosted/bsdsocket/bsdsock_pump.c:377-392 | a drain reports in slot order and passes over a ready slot only when full with lower ones |
| Pump.CallsAgree | hosted/bsdsocket/bsdsock_pump.c:185-230 | after any calls, accepted or rejected, no fd has two slots, the enabled filters are exactly those wanted, and each names its owner's slot |
| Pump.ReachableAgree | hosted/bsdsocket/bsdsock_pump.c:185-230 | so in every table that calls can make of the started pump |
| Pump.RefusedIff | hosted/bsdsocket/bsdsock_pump.c:336-347 | a registration finds no slot exactly when another target owns the fd or the table is full |
| Pump.WrongOwnerIsNoOp | hosted/bsdsocket/bsdsock_pump.c:333-375 | calls with a target that does not own the fd, whatever they want, change neither table nor filters |
| Pump.ShortDrainIsFull | hosted/bsdsocket/bsdsock_pump.c:377-392 | a drain that comes back short has reported every ready slot of the target |
| PumpWake.StepKeeps | hosted/bsdsocket/bsdsock_pump.c:93-145 | each step of `ps_wake`, `ps_wait`, stash, drain and unregister keeps the latch invariant, and a careful worker's steps keep the promise |
| PumpWake.LatchIsByte | hosted/bsdsocket/bsdsock_pump.c:93-145 | for any worker, with the mutex free the latch is set exactly when the pipe holds its one byte |
| PumpWake.NoLostWakeup | hosted/bsdsocket/bsdsock_pump.c:93-145 | a fully draining worker asleep with something stashed has the pump between the stash and its write |
| PumpWake.WakesUp | hosted/bsdsocket/bsdsock_pump.c:136-144 | once the pump's wake is over, a fully draining worker parked with something stashed can leave `select` |
| PumpWake.SleepsIff | hosted/bsdsocket/bsdsock_pump.c:109-145 | after any run, with latch clear and pump polling, one drain call and a return to `ps_wait` end asleep on a stashed slot exactly when more slots were ready than the call had room for |
| PumpWake.ShortWorkerSleeps | hosted/bsdsocket/bsdsock_pump.c:377-392 | a run from creation, two stashes and one drain with room for one, that ends asleep on the other |
| PumpWake.TableDrain | hosted/bsdsocket/bsdsock_pump.c:377-392 | `pump_drain` on the table takes ready slots of its target, as many as fit, and no other target's |
| PumpWake.OnTable | hosted/bsdsocket/bsdsock_pump.c:262-392 | every call on the table is, for the ready slots of a target, its protocol step or none |
| PumpWake.PumpSig.Wake | hosted/bsdsocket/bsdsock_pump.c:99-106 | any number of wakes leave the latch set and one byte |
| PumpWake.PumpSig.Consume | hosted/bsdsocket/bsdsock_pump.c:114-122 | reports and clears the latch and empties the pipe |
| TaskTable.SetLookup | hosted/emu68k/emu68k_taskresource.c:97-111 | a successful set changes the map at that key and nowhere else |
| TaskTable.SetFailsIff | hosted/emu68k/emu68k_taskresource.c:100-108 | a set fails exactly for a new key in a full table, and a new key uses one entry |
| TaskTable.FreedLookup | hosted/emu68k/emu68k_taskresource.c:187-192 | freeing a slot removes it for every task and nothing else |
| TaskTable.SavedIsLookup | hosted/emu68k/emu68k_taskresource.c:209-230 | a snapshot is the map restricted to the task |
| TaskTable.RoundTrip | hosted/emu68k/emu68k_taskresource.c:209-259 | a restore succeeds exactly when there is room, exactly then the task's entries are those saved, and other tasks keep theirs |
| TaskTable.HandleRoundTripIff | hosted/emu68k/emu68k_taskresource.c:209-259 | through the handle the entries come back exactly when the snapshot was written and there is room, or it was not written and the task's entries are the same pairs as then |
| TaskTable.EmptySaveExample | hosted/emu68k/emu68k_taskresource.c:214-234 | the empty save on a one-entry table: the later entry survives the restore |
| TaskTable.FullMemoryExample | hosted/emu68k/emu68k_taskresource.c:215-234 | the save of an entry with guest memory full: handle 0, and its later change survives the restore |
| TaskStorage.Storage.SetEntry | hosted/emu68k/emu68k_taskresource.c:97-111 | the two scans set the entry, or fail on a full table |
| TaskStorage.Storage.SetSlot | hosted/emu68k/emu68k_taskresource.c:194-197 | slot 0 is refused |
| TaskStorage.Storage.GetSlot | hosted/emu68k/emu68k_taskresource.c:199-202 | the value in the map, 0 for a missing key |
| TaskStorage.Storage.FreeSlot | hosted/emu68k/emu68k_taskresource.c:187-192 | the slot is freed for every task |
| TaskStorage.Storage.Save | hosted/emu68k/emu68k_taskresource.c:209-230 | writes the snapshot at the cursor and moves no other byte, or answers 0, exactly when the task has no entries or the rounded request does not fit |
| TaskStorage.Storage.Restore | hosted/emu68k/emu68k_taskresource.c:232-259 | handle 0 is ignored, a handle that is not a snapshot is rejected unchanged, any other restores the pairs it holds |
| TaskStorage.IntactIsReadBack | hosted/emu68k/emu68k_taskresource.c:217-258 | a snapshot left intact is accepted and read back as written |
| TaskStorage.Storage.PerformAll | hosted/emu68k/emu68k_taskresource.c:187-259 | any calls of any tasks follow the table functions and leave every word below the cursor |
| TaskStorage.Storage.SaveCallsRestore | hosted/emu68k/emu68k_taskresource.c:209-259 | save, any calls, restore on table and memory: the task's entries are back exactly under the condition above |
| TaskStorage.AlwaysAMap | hosted/emu68k/emu68k_taskresource.c:88-259 | after any calls, even a restore of a forged snapshot, no key has two entries |

## Left out

- SIGALRM delivery, register contexts, mmap, select, kevent and file syscalls: a tick may fall between any two steps, a filter is a map entry, a file is a byte sequence.
- Weak memory: acquire/release accesses and compiler barriers are taken to give interleaving semantics.
- The loads and stores of `forbid_cnt` are separate steps in `Kern` only; `Signals` and above take `Forbid` and `Permit` as single steps, and each critical section between them as one step, since a tick inside it returns without touching anything.
- Kern.MarksSurvive: inside a call the free list is only marked as torn, and the step writes anything that spares the other live blocks; `Kern.AllocateSpares` and `Kern.DeallocateSpares` show that the frames of `Allocator.MemHeader.Allocate` and `Allocator.MemHeader.Deallocate` are such writes.
- RoundRobin.ScheduleIs: stacks are in bounds; for tasks found off theirs see `Exec.ParkedForEver`.
- Heap.RunKeeps: sizes do not wrap in `ROUNDUP`, and a block is freed with the size it was asked for.
- Memory of the allocator is a map of 16-byte units; bytes inside an allocated block are not modelled there.
- Signals.RunKeeps: a `Wait` inside a Forbid is left out; it would block with task switching off. `Forbid` and `Signal` nest to any depth.
- Squares.EnoughRoundTrips: clocks are not modelled; how many steps a slice between ticks holds is a premise, here and in `Device.EnoughRounds`.
- Progress under ticks that come faster than the dispatched task can take one step.
- Host lists of exec.c, signal.c and msgport.c are sequences; the link stores behind them are those proved on guest memory in `GuestList`.
- Signal masks are sets of bit numbers.
- Counters of the demos are unbounded integers, so the squares never overflow.
- The port flags other than PA_SIGNAL, and a port without an owner.
- Ring.Context.Render: volume scaling and float conversion are left out, a frame is one value; the statistics counters are left out too.
- `calloc` failure in `ca_open` and host memory failure in the AVL calls.
- AvlCalls.AddNode: the span checks on root and node, a NULL callback and failing callbacks are left out; the node callback is a consistent total order and no callback changes the tree.
- GuestAvl.ExtremeNode: node addresses are in the arena, so the span error is there but never taken.
- GuestMemory.Arena.Read32: the arena ends below 2^32, so `a + 4` does not wrap.
- GuestBuilder.Builder.PrepareInit: guest memory is indexed by address, hunks lie below the cursor, the resident is one that `gl68_find_resident` accepted, and the arena ends below 2^32 - 2^24; the resident search and the error texts are left out.
- GuestImage.LibraryReady: each table and stream lies in one hunk, and displacements that reach across address 0 are not described.
- Pump.Table.Register: `kevent` adds succeed, fds stay open while registered, and nobody registers the pump's own control descriptor; starting and stopping the pump are left out.
- PumpWake.NoLostWakeup: the callback variant of `ps_wake` is left out.
- TaskStorage.Storage.Save: the second cursor that `guest_alloc` keeps in step and its clearing of the rounding bytes are left out.
- Hooks of task.resource, the hosted shell of each demo, `execboot.c` and `library.c` (compact copies of the allocator and scheduler): they would add only easy members.
