# Rensselaer's Optimistic Simulation System, in Dafny

A model of a Time Warp discrete-event simulator and of the data structures it runs on, with proofs of what the simulator
relies on. The main results speak of every run, every input or every reachable state:

* **The kernel** (`EventSignature`, `LpModel`, `TimeWarp*`, `Sequential`, `Conservative*`). Optimistic execution, rollback,
  anti-messages, GVT and fossil collection over any number of processors (PEs) are a step system in which each action is one
  atomic piece of the code between two points where messages may arrive. All reachable states satisfy one invariant, `Core`.
  From it follow: the events below GVT are, per kernel process (KP) and in order, those of the sequential scheduler, with the
  same LP states; GVT is a lower bound on all that is pending and never falls; the fatal errors for stragglers, decreasing GVT
  and unknown anti-messages are unreachable; what is committed is final. The class `Kernel` has the code's loops
  (`tw_sched_event_q`, `tw_sched_cancel_q`, `tw_sched_batch`, rollback, step 2 of GVT, fossil collection); every method is
  proved to be a run of the step system, to terminate, and to leave what its contract says. The conservative scheduler is a
  second set of rules over the same state; its runs are shown to be runs of the optimistic kernel in which nothing is undone.
* **Event queues** (`EventQueue`): the doubly linked lists and fossil collection on them, in the heap.
* **LZ4 and delta state saving** (`Lz4*`, `DeltaState`): compressor, both decoders and the byte-difference snapshots, on arrays,
  against an independent definition of the block format (`Lz4Format`: parts, their encoding, and their expansion by copying one
  byte at a time; LZ4 Block Format Description, sections "Compressed block format" and "Parsing restrictions"). What the
  compressor writes is the one parse of its input that takes each next match as far as it goes (`Lz4Parse`).
* **The priority queue** (`Splay*`): the splay tree in the heap, against a sorted sequence.
* **The buddy allocator** (`Buddy*`): buckets and in-arena headers, against a tiling of the arena.
* **The random generator** (`ModularMath`, `Clcg*`): 32-bit arithmetic, reversal and stream spacing, against powers modulo m.
* **The two remote-event indexes** (`Primes`, `HashQuadratic`; `AvlShape`, `AvlTree`): a quadratic-probing table against a finite
  map, and a height-balanced tree in the heap against a finite ordered set.

`TimeWarpFacts`, `TimeWarpSteps` and `TimeWarpEffects` hold the preservation proofs, one invariant group and action at a time.

## What the proofs found

* A zero-offset send with a smaller priority goes into the past (`EventSignature.ChildIsLater`); the kernel's results assume
  that no handler makes such a send while it handles a message of accepted priority. Sends of the default priority never are
  (`LpModel.DefaultSendIsOk`).
* For accelerations that are multiples of 2^26 the LZ4 search starts with a count of zero, stands still and finds the present
  position (`Lz4Search.SearchIsSound`). The block then has a match of offset zero, which stands for nothing, for every input
  of at least 14 bytes whose first three words differ; with all other accelerations every input round-trips
  (`Lz4Compress.CompressFast`, `DeltaState.RoundTrip`).
* Delta states use a buffer of the size of a compressed state as the compressor's working memory, of which the compressor
  clears 16416 bytes (core/lz4.c:659, core/lz4.h:187-188). The buffer is that large if and only if the largest state of the
  model has at least 16329 bytes (`DeltaState.ScratchFitsIff`); in every other model the compressor writes past it.
* `LZ4_decompress_safe` reads past its input, which core/lz4.h:97-98 says it never does, if and only if the output buffer is
  not empty and the input is empty or is one byte of 240 or more: token and first length byte are read unchecked
  (`Lz4Safe.DecompressSafe`, `Lz4Safe.ReadsOutside`). Nothing the compressor writes is such an input
  (`Lz4Safe.EncodingsReadInside`).
* A buddy request of more than 2^31 - 32 bytes wraps around and is given the smallest block (`BuddyAllocator.AllocFits`).
* The conservative scheduler relies on all sends having been posted when a GVT round ends. The white counts only cover posted
  sends and at most `send_buffer` of them are unfinished at a time, so an event may still wait in the output queue. It then
  counts towards GVT, but its destination may process later events of the window first (`Conservative.WaitingSendFails`).
  A round is harmless exactly if no pending event inside the new window is later than one of the same KP that is still to come
  (`ConservativeExact.RoundIsHarmlessIff`); it is when all sends have been posted, or those that have
  not are past the window (`Conservative.PastWindowIsInSequence`).
* Deletion from the AVL tree can leave siblings two apart, because of the double rotation on ties
  (`AvlShape.DeletionCanUnbalance`); `AvlShape.DeleteBalancesIff` says for which trees and keys it does. Order, contents and
  stored heights stay exact.
* The primality test takes 1 for a prime, which a table of size 1 survives, and rejects 2 (`Primes.OneButNotTwo`).
* Looking up an identifier that is not in the hash table reads the cell past its end if and only if one of the probes past the
  middle meets that cell, because the range check lets the size itself through (core/hash-quadratic.c:188). With the default
  size of 31 that is so for five hash values (`HashQuadratic.FindEntry`, `HashQuadratic.DefaultTable`). The kernel never looks
  up such an identifier (`TimeWarpGuarantees.ReceiveNeverFails`).

## Model

| member | source | states |
|---|---|---|
| `EventSignature.CompareIsTotalOrder` | core/ross-types.h:513-544 | Signature comparison is a total order, antisymmetric and transitive, and calls equal only what is equal: time, priority, and tie-breaker chain including its length |
| `EventSignature.CompareSig` | core/ross-types.h:513-544 | The comparison as it is computed, with its scan of the common part of the chains: negative exactly for the earlier time, then the smaller priority, then the smaller tie-breaker where the chains first differ, then the chain that ends first; positive exactly the other way round; zero exactly for equal signatures |
| `EventSignature.CompareIsBefore` | core/ross-types.h:513-544 | The order of all results is that one |
| `EventSignature.ChildIsLater` | core/ross-inline.h:110-124 | A send with a non-negative offset is strictly later than the event whose handler makes it if and only if its offset is positive or its priority is no smaller |
| `EventSignature.DefaultPriorityIsLater` | core/ross-inline.h:133-137 | `tw_event_new`, which always passes priority 1, never schedules into the past |
| `EventSignature.LowPriorityZeroOffsetIsEarlier` | core/ross-inline.h:110-124 | A concrete send that goes into the past: zero offset and priority 0 from an event of priority 1 |
| `LpModel.ExecIsReversible` | core/tw-event.c:221-307 | Undoing one event restores the state vector, and one reverse draw per scheduled message and per unscheduled send restores the core random stream |
| `LpModel.ChildrenAreLater` | core/ross-inline.h:47-131 | Every message a handler schedules is strictly later than the event it handles, and has a priority the kernel accepts |
| `LpModel.OutsAreSends` | core/ross-inline.h:47-131 | Each send before the end time becomes a message of its own, in the order of the sends: to its destination, at its time, with its priority, its payload and the tie-breaker drawn for it |
| `LpModel.ExecDoes` | core/tw-event.c:22-127 | Handling an event yields one such message for each send before the end time and a count of the others, and one draw is made for every send |
| `LpModel.DefaultSendIsOk` | core/ross-inline.h:133-137 | What `tw_event_new` sends from an event of accepted priority is an acceptable send, zero offset included |
| `TimeWarpSafety.InitIsCore` | core/tw-sched.c:477-512 | The initial state satisfies every invariant of the kernel |
| `TimeWarpSafety.ApplyKeepsCore` | core/tw-sched.c:44-320 | Every action of every PE (processing, undoing, annulling, queueing, sending, receiving, GVT phases, fossil collection) keeps all of them: identifiers, causes, sorted stacks and histories, GVT bounds, anti-message routes and life cycles, the lookup index, white counts, LP states |
| `TimeWarpSafety.RunKeepsCore` | core/tw-sched.c:922-970 | So does every run, with any interleaving |
| `TimeWarpGuarantees.ReceiveNeverFails` | core/network-mpi.c:381-428 | In every reachable state the next message of a channel is not earlier than GVT ("Received straggler" is unreachable), belongs to the receiver, and if it is an anti-message the index holds exactly its positive |
| `TimeWarpGuarantees.ReceiveDoes` | core/network-mpi.c:356-460 | A received event enters the index and is queued if its KP has not gone past it and nothing is being cancelled, and waits in event_q otherwise; an anti-message takes its event out of the index and puts it on cancel_q |
| `TimeWarpGuarantees.SendDoes` | core/network-mpi.c:481-590 | A send puts exactly one message behind those under way to its PE; a completed one is kept, or its anti-message queued if it was annulled meanwhile, or forgotten if it was an anti-message |
| `TimeWarpGuarantees.ProcessSends` | core/tw-sched.c:162-320 | Processing an event puts it on top of its KP's stack, moves last_sig, LP state and random stream as its handler says, and sends each of its sends before the end time as an event with the next free number: into the output queue for another PE, into the priority queue on this one, or into event_q if its KP is past it |
| `TimeWarpGuarantees.CancelNeverFails` | core/tw-event.c:129-219 | `event_cancel` and `tw_net_cancel` always find the event in a state they have a case for |
| `TimeWarpGuarantees.CancelDoes` | core/tw-event.c:129-219 | `event_cancel` drops an unsent remote event, flags one being sent, queues an anti-message for one that was sent; it deletes an event of the same PE that is queued and puts any other on cancel_q; all but the deletion enter the transient minimum |
| `TimeWarpGuarantees.GvtNeverDecreases` | core/gvt/mpi_allreduce.c:245-250 | Every agreed minimum is at least the previous GVT: "GVT decreased" is unreachable |
| `TimeWarpGuarantees.GvtIsLowerBound` | core/gvt/mpi_allreduce.c:170-276 | Once the white counts sum to zero the agreed minimum is no later than anything unprocessed, cancelled, waiting to be sent or still being sent on any PE, and nothing is under way |
| `TimeWarpGuarantees.CancelledIsReachable` | core/tw-sched.c:97-160 | Whatever is on a cancel queue waits in a queue, is being rolled back, or is on its KP's stack with only events at or after GVT above it |
| `TimeWarpGuarantees.CommittedIsFinal` | core/tw-eventq.h:150-204 | No action takes back a committed event, changes the order of those committed, or lowers GVT |
| `TimeWarpGuarantees.RunCommittedIsFinal` | core/tw-eventq.h:150-204 | Nor does any run |
| `TimeWarpGuarantees.StagesOnlyAdvance` | core/network-mpi.c:480-690 | The sender's buffer of a remote event only moves forward through its life cycle, so the event is sent at most once, its anti-message at most once and only after it |
| `TimeWarpGuarantees.GoneForGood` | core/network-mpi.c:400-427 | Once an event and its anti-message have annihilated each other nothing brings the event back |
| `TimeWarpGuarantees.FossilDoes` | core/tw-eventq.h:53-204 | Fossil collection commits exactly the events of the KP earlier than GVT; they leave the index, and exactly the completely sent buffers they caused are freed |
| `TimeWarpTheorems.CommittedIsSequential` | core/tw-sched.c:922-970 | For every run of the optimistic kernel: what each KP has processed below GVT is, in the same order, what the sequential scheduler has given it when it reaches GVT, and it leads to the same LP states |
| `TimeWarpTheorems.SequentialRunExists` | core/tw-sched.c:691-776 | The sequential run that theorem speaks of exists for every run of the optimistic kernel |
| `TimeWarpTheorems.HistoryIsSequential` | core/tw-eventq.h:53-141 | What a KP has committed is an initial part of what the sequential scheduler gives it up to GVT, and once it has collected its fossils, exactly that |
| `TimeWarpTheorems.FinalStateIsSequential` | core/tw-sched.c:922-970 | Once all a KP has processed is below GVT its LPs are in the states the sequential scheduler leaves them in |
| `Sequential.RunKeepsOrder` | core/tw-sched.c:691-776 | The sequential scheduler never goes back in time, on any run of any model whose sends are accepted |
| `Sequential.InitIsInOrder` | core/tw-sched.c:691-776 | Every such run starts in order |
| `Sequential.Scheduler.Run` | core/tw-sched.c:691-776 | The scheduler's loop is a run of the sequential step system, processes nothing past the end time, and stops early only when nothing is queued up to it |
| `Sequential.Scheduler.FindLeast` | core/queue/splay.c:298-339 | A least message of the queue |
| `TimeWarpKernel.Kernel.constructor` | core/tw-sched.c:477-512 | The kernel starts in the initial state, which satisfies the invariants |
| `TimeWarpKernel.Kernel.Take` | core/tw-sched.c:44-320 | Taking an enabled action leads to exactly its successor state and keeps the invariants |
| `TimeWarpKernel.Kernel.ServiceQueues` | core/network-mpi.c:594-605 | Servicing the network is a run of sends, completions and receives of this PE; it disturbs no rollback in progress and touches no processed event |
| `TimeWarpKernel.Kernel.UndoTop` | core/tw-event.c:221-307 | Undoing the newest event of a KP takes it off the stack, and queues it again or frees it. Of what it caused on the same PE, an event waiting in the priority queue is deleted at once and any other goes on cancel_q. last_sig becomes its own signature, or falls back to the newest event left or GVT. Nothing else changes but by annulment |
| `TimeWarpKernel.KidsOneMore` | core/tw-event.c:129-219 | What has become of the children of undone events stays so when the next older event of the KP is undone, which may delete a child that had been undone and queued again |
| `TimeWarpKernel.Kernel.RollbackToSig` | core/tw-kp.c:24-56 | The events undone are exactly the newest ones at or after the given signature; each is queued again unless its own cause was undone too. What they caused on the same PE is deleted if it was queued, or was undone itself on the way, and is on cancel_q otherwise; no child of an undone event stays live. LP states and random streams are what the remaining events lead to; last_sig falls back to the newest remaining event or GVT |
| `TimeWarpKernel.RollbackIsExact` | core/tw-kp.c:24-56 | After a rollback every LP of the KP, core random stream included, is as the remaining events leave it, and nothing an undone event caused is live |
| `TimeWarpKernel.Kernel.RollbackEvent` | core/tw-kp.c:103-156 | A secondary rollback undoes the events above the cancelled one, none of them earlier, which are queued again unless their own cause was undone too, and then the cancelled one, which is freed for good; the stack below it stays, other events are touched only if an undone one caused them, LP states are what the remaining events lead to, no child of an undone event stays live, and those on the same PE are deleted or on cancel_q, as before |
| `TimeWarpKernel.SecondaryIsExact` | core/tw-kp.c:103-156 | After it every LP of the KP is as the remaining events leave it, and nothing an undone event caused is live |
| `TimeWarpKernel.Kernel.SchedEventQ` | core/tw-sched.c:44-90 | Spinning out the event queue terminates with it empty. Everything that was there has been taken, and what had been cancelled already waits as such. Each event undone on the way is at or after one of the taken events, of the same KP; it is queued again, or lost because its cause was undone; every other event is left alone or lost for that reason; LP states are what the remaining events lead to, and nothing an undone event caused is live |
| `TimeWarpKernel.Kernel.SchedCancelQ` | core/tw-sched.c:97-160 | Emptying the cancel queue terminates with nothing left to cancel. Everything that was cancelled has been freed for good, and what was freed had been cancelled or was caused by an event undone. Each event undone on the way is at or after a freed one of the same KP; it is queued again, freed, or lost because its cause was undone; every other event is left alone, freed, or lost for that reason; LP states are what the remaining events lead to, and nothing an undone event caused is live |
| `TimeWarpKernel.Kernel.SchedBatch` | core/tw-sched.c:162-320 | A batch processes, one after the other, the least queued event of the PE: the given number, or fewer if the queue runs empty |
| `TimeWarpKernel.BatchIsOrdered` | core/tw-sched.c:162-320 | The events of a batch are in order of signature |
| `TimeWarpKernel.Kernel.MinQueued` | core/queue/splay.c:397-408 | The least queued event of a PE, if it has any |
| `TimeWarpKernel.Kernel.NetMinimum` | core/network-mpi.c:204-228 | The least signature among the PE's waiting and unfinished sends, attained by one of them or the largest signature of all |
| `TimeWarpKernel.Kernel.LocalMinimum` | core/gvt/mpi_allreduce.c:210-231 | The least signature among transient messages, queued events and unfinished sends of the PE |
| `TimeWarpKernel.Kernel.GvtStep2` | core/gvt/mpi_allreduce.c:170-276 | Nothing changes unless every PE waits and the white counts sum to zero; then GVT becomes the least of all local minima, is no lower than before, no message is under way, and every PE goes on with its counts at zero and its minimum at the largest signature |
| `TimeWarpKernel.Kernel.FossilCollect` | core/tw-pe.c:67-82 | Every KP commits exactly the part of its stack below GVT, oldest first, and keeps exactly the rest; other KPs are left alone |
| `Conservative.NeverFails` | core/tw-sched.c:793-861 | With every send at least the lookahead ahead, and every GVT round leaving what is pending in sequence (no event of a KP inside the new window is later than one still to come), the scheduler never stops with "Found KP last time", no event ever arrives too late, and the run is one of the optimistic kernel |
| `Conservative.ConservativeIsSequential` | core/tw-sched.c:793-903 | Then each KP has processed, in the order in which it processed them, what the sequential scheduler gives it up to GVT, and every LP is in the state its KP's events lead to |
| `ConservativeExact.RoundIsHarmlessIff` | core/tw-sched.c:808-861 | A GVT round is harmless, whatever all PEs do until the next one, if and only if it leaves what is pending in sequence |
| `Conservative.PastWindowIsInSequence` | core/gvt/mpi_allreduce.c:190-212 | A round leaves what is pending in sequence if all sends have been posted, or those that still wait are past the new window |
| `ConservativeExact.OvertakenFails` | core/tw-sched.c:854-861 | While an event waits to be sent and a later one of its KP is queued inside the window, there is a run without a further round that ends in the error |
| `Conservative.WaitingSendFails` | core/gvt/mpi_allreduce.c:190-212 | A round that is not: a run, with room for one unfinished send, in which a round finds an event still waiting to be posted and the destination then processes a later one, ends in the error |
| `Conservative.KidsAreOutside` | core/tw-event.c:52-61 | What a handler run inside the window sends is past the window |
| `Conservative.StepKeepsWindow` | core/tw-sched.c:808-903 | Every step keeps what is processed inside the window, what is pending no older than what its KP has processed, and what is still to come in sequence |
| `EventQueue.Queue.Push` | core/tw-eventq.h:280-298 | The event is appended; links, tail and size agree |
| `EventQueue.Queue.Pop` | core/tw-eventq.h:312-338 | The last event is removed, or null from an empty queue |
| `EventQueue.Queue.Unshift` | core/tw-eventq.h:343-362 | The event is put in front |
| `EventQueue.Queue.Shift` | core/tw-eventq.h:376-402 | The first event is removed, or null from an empty queue |
| `EventQueue.Queue.DeleteAny` | core/tw-eventq.h:407-429 | The given event is unlinked from wherever it is; the others keep their order |
| `EventQueue.Queue.PopList` | core/tw-eventq.h:435-444 | The queue is empty afterwards and its events stay linked to each other |
| `EventQueue.Queue.FreeEvent` | core/ross-inline.h:140-161 | The buffer is marked free and put in front of the free list |
| `EventQueue.Queue.FreeSent` | core/tw-eventq.h:106-120 | Exactly the fully sent buffers among those an event caused go to the free list, each once |
| `EventQueue.Queue.CommitAll` | core/tw-eventq.h:82-139 | The events are committed from the tail to the head although the buffers freed meanwhile are linked in front of the same list |
| `EventQueue.Queue.PushList` | core/tw-eventq.h:53-141 | The given list becomes the front of the free list, behind exactly the sent buffers its events caused, and its events are committed in reverse |
| `EventQueue.Queue.FindCut` | core/tw-eventq.h:181-192 | The search from the tail finds the newest event older than GVT and counts what is to be cut off |
| `EventQueue.Queue.FossilCollect` | core/tw-eventq.h:159-204 | The queue keeps its events down to the cut; the rest is committed oldest first and moved to the free list together with the sent buffers it caused; both lists stay properly linked |
| `EventQueue.KeptIsCut` | core/tw-eventq.h:143-158 | On a queue sorted from newest to oldest the cut leaves exactly the events older than GVT behind it |
| `Lz4Format.RepeatsIsCopy` | core/lz4.c:1246-1274 | A stretch of output that repeats itself byte by byte is what copying one byte at a time produces, overlap included |
| `Lz4Format.EncodeBound` | core/lz4.h:106 | An encoding of n bytes is at most n + n/255 + 16 bytes long |
| `Lz4Format.ShortExample` | core/lz4.c:532-628 | The eleven bytes of 64 zeros: a literal, a match of 58 bytes one byte back, five literals |
| `Lz4Format.LongExample` | core/lz4.c:541-604 | The bytes of an offset, of lengths at and past the token's limit, and of a token |
| `Lz4Format.LimitsExample` | core/lz4.c:220-224 | The latest start and the furthest end of a match, and that one byte more is against the restrictions |
| `Lz4Memory.CommonBytes` | core/lz4.c:248-311 | Counting agreeing low bits of two different words and dividing by eight finds the first byte that differs |
| `Lz4Memory.Count` | core/lz4.c:315-336 | The length of the common stretch at two positions, exactly, up to the limit |
| `Lz4Memory.WildCopy` | core/lz4.c:207-213 | Everything up to the end is copied and at most seven bytes past it are overwritten |
| `Lz4Memory.WildCopyWithin` | core/lz4.c:207-213 | Within one buffer, with source and target eight or more apart, every byte repeats the one as far back |
| `Lz4Memory.TablesKeepPeriod` | core/lz4.c:1136-1137 | For every offset below eight the two correction tables leave source and target at least eight apart, by a whole number of offsets |
| `Lz4Memory.Periodic` | core/lz4.c:1246-1273 | A stretch copied from a whole number of periods back goes on repeating with the period |
| `Lz4Search.SlotKeeps` | core/lz4.c:406-432 | A two-byte table entry never loses part of a position: such tables are only used below 64 KB |
| `Lz4Search.HashOfFiveBytes` | core/lz4.c:389-404 | The table is indexed by five bytes: where the same five stand the same entry is met |
| `Lz4Search.HashExamples` | core/lz4.c:389-404 | The hashes of four words of a single bit |
| `Lz4Search.SearchTakes` | core/lz4.c:495-530 | With room left for a match the search ends at its first position, with the entry met there, if and only if that is an earlier position at most 65535 back where the same four bytes stand |
| `Lz4Search.PaceQuickens` | core/lz4.c:495-508 | Each step is as long as the acceleration, and one longer for every 64 positions searched in vain |
| `Lz4Search.SearchFindsWords` | core/lz4.c:495-530 | What the search finds is at most 65535 bytes back, is not later than the present position, and the same four bytes stand there |
| `Lz4Search.SearchFindsEarlier` | core/lz4.c:495-530 | A search whose count starts at 64 or more only finds strictly earlier positions |
| `Lz4Search.SearchStandsStill` | core/lz4.c:495-530 | With a step of zero the search stays at one position until it "finds" that very position |
| `Lz4Search.SearchIsSound` | core/lz4.c:495-530 | The search finds only earlier positions, on every input, if and only if the acceleration is not a multiple of 2^26 (for those the shift by 6 makes the first count zero) |
| `Lz4Search.FreshStartStandsStill` | core/lz4.c:495-530 | Searched with a first count of zero, every input whose first three words differ is matched with itself, at offset zero |
| `Lz4Search.NoRepetition` | core/lz4.c:495-530 | Sixteen bytes without any repetition are such an input |
| `Lz4Parse.NextTakes` | core/lz4.c:606-634 | Right behind a match the entry met there is taken if and only if it will do |
| `Lz4Parse.ParseIsUnique` | core/lz4.c:435-654 | An input has, for its table type and first count, one block whose every match is the next one by table and search, stretched as far as it goes both ways, and after whose last match there is no further one |
| `Lz4State.PutSlot` | core/lz4.c:406-414 | Writing an entry into the bytes of the working memory changes exactly that entry of the table |
| `Lz4State.GetSlot` | core/lz4.c:422-427 | Reading an entry back from those bytes |
| `Lz4State.ResetStream` | core/lz4.c:943-946 | The first LZ4_STREAMSIZE bytes are cleared and no others; the table is then all zeros, whatever the width of its entries |
| `Lz4Compress.FindMatch` | core/lz4.c:495-530 | The search loop on the table in place computes that search, table included |
| `Lz4Compress.PartIsSound` | core/lz4.c:532-628 | A match the search found, extended both ways, stands for the bytes it replaces and respects the offset and end-of-block restrictions |
| `Lz4Compress.CompressGeneric` | core/lz4.c:435-654 | Unsupported inputs give 0 and leave the output alone. Every other input is written as its one parse, a block of its own length that respects the parsing restrictions and fits the bound, and that expands to the input whenever the search moves; for every input that starts without repetition the offsets of the block are valid if and only if it does. At least 14 equal bytes take up at most a 255th of their number and 12 bytes |
| `Lz4Compress.CompressFast` | core/lz4.c:657-676 | The same for every input and acceleration, on the working memory it is given: the parse for two-byte table entries below 65547 bytes and four-byte ones from there on, and for acceleration 1 if it is less |
| `Lz4Compress.EqualBytesAreShort` | core/lz4.c:435-654 | The parse of at least 14 equal bytes is one match between at most one literal and five |
| `Lz4Decompress.CopyRepeated` | core/lz4.c:1246-1274 | The fast match copy fills exactly the match with the repeated bytes for every offset from 1 on, writes nothing outside the output, and fails exactly if the match runs into the last five bytes |
| `Lz4Decompress.DecompressFast` | core/lz4.c:1110-1285 | Given a well-formed block of n bytes it restores exactly them, touches nothing past them, and returns the length of the block |
| `Lz4Safe.DecompressSafe` | core/lz4.c:1288-1291 | For every input: it reads past the input if and only if the output is not empty and the first token, or the length byte it calls for, is missing; otherwise it reads and writes nothing outside input and output and succeeds exactly if the input is an acceptable block, which it then restores |
| `Lz4Safe.ReadsOutside` | core/lz4.c:1149-1160 | Two inputs it reads past: no bytes at all, and the single byte 240 |
| `Lz4Safe.EncodingsReadInside` | core/lz4.c:1149-1160 | No encoding of any block is read past |
| `Lz4Safe.WellFormedIsAccepted` | core/lz4.c:1288-1291 | Every well-formed block that fits is acceptable |
| `DeltaState.DeltaInverts` | core/tw-state.c:30-32 | Taking the wrap-around byte difference away again gives back what was there before |
| `DeltaState.DeltaIsDifference` | core/tw-state.c:30-32 | Adding the difference to the earlier bytes gives the later ones, and it is zero exactly where nothing changed |
| `DeltaState.RoundTrip` | core/lz4.c:1110-1285 | For every input and acceleration the output fits the bound, and unless the acceleration is a multiple of 2^26 decompressing it gives back the input with exactly the written bytes read; if it is one, no input that starts without repetition gets a block with valid offsets |
| `DeltaState.ScratchFitsIff` | core/tw-setup.c:441-447 | The third delta buffer has room for the memory the compressor clears if and only if the largest state has at least 16329 bytes |
| `DeltaState.ScratchTooSmall` | core/tw-setup.c:441-447 | Two sizes for which it has not: 8 bytes, and 16328 |
| `DeltaState.Lp.Snapshot` | core/tw-state.c:8-13 | The snapshot is the state |
| `DeltaState.Lp.SnapshotDelta` | core/tw-state.c:20-49 | The compressor writes past the scratch buffer the PE has if and only if the largest state has fewer than 16329 bytes; otherwise, whatever the handler did, the compressed difference fits the output buffer and the event holds a well-formed block for it; a state of 14 bytes or more that has not changed takes up at most a 255th of its size and 12 bytes |
| `DeltaState.Lp.SnapshotRestore` | core/tw-state.c:54-72 | The state before the handler is restored byte for byte |
| `DeltaState.Lp.SaveAndUndo` | core/tw-state.c:8-72 | If the scratch buffer is large enough and the search moves, snapshot, any handler, difference and restore together leave the state as it was |
| `SplayPq.LessIsOrder` | core/queue/splay.c:99-143 | The queue's comparison is a strict total order on events |
| `SplayPq.CompareLess` | core/queue/splay.c:99-143 | The comparison as it is computed holds exactly if the first event has the earlier signature, or the same one and the smaller number, or these are the same too and it has the smaller sending PE |
| `SplayPq.LessGoesFirst` | core/queue/splay.c:99-143 | So does the order the queue is sorted by |
| `SplayShape.InOrderIsOrder` | core/queue/splay.c:146-242 | Walking a subtree from left to right meets exactly its stretch of the sequence, in order |
| `SplayShape.RotateRightIsTree` | core/queue/splay.c:47-49 | A right rotation keeps the in-order sequence, parent links and child links, and enlarges the subtree of the node that rises |
| `SplayShape.RotateLeftIsTree` | core/queue/splay.c:51-53 | So does a left rotation |
| `SplayQueue.Splay` | core/queue/splay.c:146-242 | Splaying brings the node to the top by zig, zig-zig and zig-zag steps, terminates, and keeps sequence and links |
| `SplayQueue.Bypass` | core/queue/splay.c:341-395 | A node with at most one child is taken out by linking around it |
| `SplayQueue.BypassTwo` | core/queue/splay.c:355-376 | A node with two children gives way to its predecessor, splayed to the top of the left subtree |
| `SplayPq.Queue.constructor` | core/queue/splay.c:55-64 | The queue starts empty |
| `SplayPq.Queue.Enqueue` | core/queue/splay.c:244-296 | The event is inserted at its place of the sorted sequence; the least pointer, size and largest size follow |
| `SplayPq.Queue.Dequeue` | core/queue/splay.c:297-339 | The event that goes first is removed, with a signature no later than any that remains, or null from an empty queue; its links are cleared |
| `SplayPq.Queue.DeleteAny` | core/queue/splay.c:340-395 | Exactly the given event is removed, the others keep their order |
| `BuddyPowers.NextPower2IsLeast` | core/buddy.c:23-37 | The bit trick gives the least power of two not less than its argument up to 2^31, and zero beyond |
| `BuddyPowers.BuddyHalves` | core/buddy.c:86-91 | Flipping the size's bit of a block's address gives the other half of the aligned block of twice the size |
| `BuddyTiles.SplitIsTiling` | core/buddy.c:197-232 | Splitting keeps the arena tiled by aligned powers of two without gaps |
| `BuddyTiles.MergeIsTiling` | core/buddy.c:80-135 | So does merging buddies |
| `BuddyTiles.BuddyIsTile` | core/buddy.c:86-102 | The buddy address of any block but the whole arena starts a block, no larger than it |
| `BuddyTiles.LiveApart` | core/buddy.c:234-286 | Two allocations in use never share a byte |
| `BuddyTiles.AllFreeIsWhole` | core/buddy.c:137-195 | With nothing in use and no two free buddies the arena is one block |
| `BuddyAllocator.Allocator.constructor` | core/buddy.c:288-333 | The arena starts as one free block in the last bucket |
| `BuddyAllocator.Allocator.SplitBucket` | core/buddy.c:197-232 | The first block of a bucket becomes two in the bucket below, its lower half first; lists, counts and headers follow |
| `BuddyAllocator.Allocator.Alloc` | core/buddy.c:234-286 | It fails exactly when no free block is large enough, changing nothing. Otherwise the start of a free block of the smallest order at hand that will do comes into use, with the computed order; what is left of that block is free, and every other block stays as it is |
| `BuddyAllocator.Allocator.TryMerge` | core/buddy.c:80-135 | Merging goes on as long as the buddy is free and of the same size; afterwards no two free buddies are left |
| `BuddyAllocator.Allocator.Free` | core/buddy.c:137-195 | Exactly the given block leaves use, whole lists, counts, headers and the absence of free buddies kept; freeing a free block changes nothing |
| `BuddyAllocator.FreedIsWhole` | core/buddy.c:288-333 | When everything has been freed, in whatever order, the arena and the table are as they started |
| `BuddyAllocator.AllocFits` | core/buddy.c:236-250 | The block has room for header and request, and is as small as can be, if and only if both fit in 2^31 bytes; larger requests wrap and get the smallest block |
| `Clcg4.MultModM` | core/rand-clcg4.c:78-138 | The product modulo m in [0, m) for all factors of absolute value below m, with every intermediate value in 32 bits and every loop terminating |
| `Clcg4.FindB` | core/rand-clcg4.c:38-67 | The k-th power modulo m, by squaring in 64 bits |
| `ClcgStreams.FactorsAreInverse` | core/rand-clcg4.c:406-407 | For the four multipliers the computed power is their inverse modulo m |
| `ClcgStreams.StepsAreInverse` | core/rand-clcg4.c:450-556 | A draw forward and a draw back, in either order, give back the state, which stays in range |
| `ClcgStreams.AheadAndBack` | core/rand-clcg4.c:450-556 | So do n draws and n reverse draws, for every n |
| `ClcgStreams.AheadIsPower` | core/rand-clcg4.c:450-496 | n draws multiply the state by the n-th power of the multiplier |
| `ClcgStreams.Schrage` | core/rand-clcg4.c:460-465 | The multiplication by quotient and remainder is the multiplication modulo m, within 32 bits |
| `ClcgStreams.Generator.constructor` | core/rand-clcg4.c:356-410 | The seed is 11111111, 22222222, 33333333, 44444444, or the one given with each component moved to the nearest value in range; the jump factors are the multipliers to the powers 2^w and 2^(v+w), and b their inverses |
| `ClcgStreams.Clamp` | core/rand-clcg4.c:155-175 | Clamping gives the seed itself if it is in range, and otherwise the nearest value that is |
| `ClcgStreams.Stream.InitGenerator` | core/rand-clcg4.c:240-262 | A reset sets the stream to its initial state, its last one, or one 2^w draws past it |
| `ClcgStreams.Stream.GenVal` | core/rand-clcg4.c:450-500 | A draw advances all four components and the count |
| `ClcgStreams.Stream.GenReverseVal` | core/rand-clcg4.c:514-556 | A reverse draw takes them back |
| `ClcgStreams.DrawAndReverse` | core/rand-clcg4.c:450-556 | Any number of draws taken back in full leaves state and count exactly as they were |
| `ClcgStreams.AheadAdds` | core/rand-clcg4.c:294-306 | Multiplying by the k-th power moves a state k draws further ahead |
| `ClcgStreams.JumpToStream` | core/rand-clcg4.c:291-317 | Going through the binary digits of the stream number moves the seed that number times 2^(v+w) draws ahead |
| `ClcgStreams.InitialSeedOf` | core/rand-clcg4.c:267-324 | The initial state of stream id is the seed advanced by id times 2^(v+w) draws in each component, for every 64-bit id, and the final clamp changes nothing |
| `Primes.PrimeDividesFactor` | core/hash-quadratic.c:239-280 | Euclid's lemma for factors smaller than the prime |
| `Primes.SquaresAreDistinct` | core/hash-quadratic.c:160-168 | The squares of 0 to (p-1)/2 are distinct modulo an odd prime |
| `Primes.IsPrime` | core/hash-quadratic.c:258-280 | Trial division up to one past the root recognises exactly the odd primes, and 1 |
| `Primes.OneButNotTwo` | core/hash-quadratic.c:258-280 | 1 is among what it recognises, 2 and every other even number is not |
| `Primes.LargerPrime` | core/hash-quadratic.c:250-252 | Above every number there is an odd prime, so the search for one ends |
| `Primes.NextPrime` | core/hash-quadratic.c:238-256 | The least odd prime from 2n + 1 on |
| `HashQuadratic.NextProbe` | core/hash-quadratic.c:160-168 | Adding the next odd number and subtracting the size at most once leads to the next square probe and stays inside the table |
| `HashQuadratic.ProbesAreDistinct` | core/hash-quadratic.c:151-171 | In a table of prime size the first (p+1)/2 probes are distinct |
| `HashQuadratic.FullProbes` | core/hash-quadratic.c:151-171 | Probes that all find a full cell are no more than the full cells, so a table at most half full has an empty one among them |
| `HashQuadratic.FindEmpty` | core/hash-quadratic.c:151-171 | The first empty cell the probes meet is found, and it is among the first (p+1)/2 |
| `HashQuadratic.FindEntry` | core/hash-quadratic.c:173-195 | The stored event of an identifier is found, past empty cells and other events; one that is not stored is reported, except that the cell past the table is read if and only if the probes past the middle meet it |
| `HashQuadratic.DefaultTable` | core/hash-quadratic.c:21 | With the default size of 31 they meet it for exactly five hash values |
| `HashQuadratic.LateTry` | core/hash-quadratic.c:182-192 | Past the middle each probe is the one before plus the next even number, until one leaves the table; it leaves it at the cell past the end exactly if any probe would |
| `HashQuadratic.TakeRemoves` | core/hash-quadratic.c:229-233 | Emptying a cell removes that event and leaves every other one where its probes find it |
| `HashQuadratic.Table.constructor` | core/hash-quadratic.c:51-75 | The table starts empty, of the configured size if that is an odd prime or 1, and else of the least odd prime from twice it plus one on |
| `HashQuadratic.Table.Insert` | core/hash-quadratic.c:79-105 | The table's map gains exactly the event, in the first empty cell its probes meet; a table that would be more than half full is replaced by one of the next prime size |
| `HashQuadratic.Table.Rehash` | core/hash-quadratic.c:117-149 | Every event is carried over to a table of the least odd prime size from twice the old size plus one on: "Did not rehash properly" is unreachable |
| `HashQuadratic.Table.Remove` | core/hash-quadratic.c:205-236 | The event stored under the identifier is returned and the map loses exactly it; if there is none the table stays as it is |
| `AvlShape.GreaterIsOrder` | core/avl_tree.c:185-226 | Comparing time, first tie-breaker, number and sender in turn is a total order |
| `AvlShape.GreaterIsLater` | core/avl_tree.c:185-225 | Later events are greater; then those with the larger tie-breaker, number, and sending PE |
| `AvlShape.RotateKeeps` | core/avl_tree.c:114-132 | A rotation keeps order, contents and nodes and leaves exact heights |
| `AvlShape.RebalanceKeeps` | core/avl_tree.c:137-166 | So does rebalancing, which never rotates through an empty child |
| `AvlShape.SearchFinds` | core/avl_tree.c:38-77 | The search finds a key exactly if the ordered tree holds it |
| `AvlShape.InsertAdds` | core/avl_tree.c:171-229 | Insertion adds exactly the entry, on exactly the new node, and keeps the order |
| `AvlShape.InsertKeepsBalance` | core/avl_tree.c:171-229 | Insertion keeps siblings within one of each other in height and adds at most one to the whole |
| `AvlShape.WithoutMinRemoves` | core/avl_tree.c:244-266 | Deleting the minimum removes exactly the least entry and one node |
| `AvlShape.DeleteRemoves` | core/avl_tree.c:269-328 | Deletion removes exactly the entry of the key and one node, and keeps the order |
| `AvlShape.LowerBalancesIff` | core/avl_tree.c:142-161 | With one child two taller than the other, rebalancing restores the balance if and only if the child's own children differ in height or the inner one is not lower on its outer side |
| `AvlShape.DeleteBalancesIff` | core/avl_tree.c:269-328 | For every balanced tree and key, deletion leaves siblings within one of each other if and only if at every node on the way to the key, and on to its successor, that sees the child on that way lose a level, the other child is no taller, or its children differ in height, or the inner of these is not lower on its outer side; the tree loses at most one level, exactly when every node on the way passes the loss on |
| `AvlShape.WithoutMinBalancesIff` | core/avl_tree.c:244-266 | The same for deleting the minimum |
| `AvlShape.DeletionCanUnbalance` | core/avl_tree.c:149-156 | Eight insertions, on eight nodes, and one deletion that leave a tree with siblings two apart |
| `AvlTree.RotateTree` | core/avl_tree.c:114-132 | The rotation of the linked tree is that of its shape |
| `AvlTree.RebalanceTree` | core/avl_tree.c:137-166 | The same for rebalancing |
| `AvlTree.Pool.constructor` | core/hash-quadratic.c:34-49 | The free list of the given number of nodes |
| `AvlTree.Pool.Alloc` | core/avl_tree.c:330-345 | The first node of the free list |
| `AvlTree.Pool.Free` | core/avl_tree.c:347-355 | The node is cleared and put in front of the free list |
| `AvlTree.InsertTree` | core/avl_tree.c:171-229 | The linked tree becomes the shape with the entry inserted, on the first free node |
| `AvlTree.DeleteMinTree` | core/avl_tree.c:244-266 | The least entry is returned and its node goes to the free list |
| `AvlTree.DeleteTree` | core/avl_tree.c:269-328 | The stored entry is returned, the linked tree becomes the shape without it, and one node goes to the free list |
| `AvlTree.SearchTree` | core/avl_tree.c:38-77 | The search on the linked tree is that on its shape |
| `AvlTree.Index.Add` | core/hash-quadratic.c:79-90 | The index gains exactly the entry, keeps the balance, and the nodes in use and free stay the same set |
| `AvlTree.Index.Remove` | core/hash-quadratic.c:205-218 | The entry stored under the key is returned and the index loses exactly it; no node is lost |
| `AvlTree.Index.Holds` | core/avl_tree.c:38-77 | Whether an entry is held under the key |

## Left out

What the kernel's results assume:

- The handler is any deterministic function of state and event with an exact inverse, and the core random stream runs backwards
  (`LpModel.ModelOk`); that the stream does is what `ClcgStreams` shows for the generator in use.
- Time stamps, priorities and tie-breakers are reals; rounding is not modelled. The largest double stands for the largest time.
- The comparison with the sequential run assumes that tie-breakers never give two queued messages of that run the same signature
  (`Sequential.NeverTies`). The safety results do not.
- MPI is a FIFO channel per pair of PEs. Sends start and complete, and messages arrive, at any moment, in any order per channel
  end; the order in which `service_queues` tries its four pieces and the limits of its queues are not modelled.
- The two all-reduces of a GVT round are one step of all PEs at once, as a blocking collective operation is. The GVT hook,
  the check for a GVT that stays the same, and the realtime variant are left out.
- Event buffers are always available: the abort path of `tw_sched_batch` (core/tw-sched.c:261-292) and the fossil collection
  forced by a short free list are left out. On that path last_sig is reset from the oldest event, since `tw_eventq_peek` returns
  the tail (core/tw-eventq.h:303-307), so the order of the stack would not survive it.
- Identifiers are never reused and buffers carry bookkeeping the code does not have: the causing event (`Ev.cause`), every event
  ever sent (`Sys.born`), the committed history (`Sys.hist`), and the index of received events as a set.
- LP suspension, output messages, statistics, instrumentation, `critical_path`, the limit on the tie-breaker chain, RIO, the
  realtime and debug schedulers and `tw_scheduler_rollback_and_cancel_events_pe` are left out.
- In the step system the queues of a PE are maps from events to owners; that the linked queues and the splay tree refine
  sequences and sorted sequences is proved on its own (`EventQueue`, `SplayPq`), not inside the step system.
- TimeWarpKernel.Kernel.SchedEventQ: the order in which the events of the queue are taken is left open, and so it is for the cancel queue; the code goes through its lists.
- TimeWarpKernel.Kernel.ServiceQueues: how many messages arrive or complete is left open; what `MPI_Testsome` reports is not known.
- In the conservative model processed events and sent buffers stay as a record where the code frees them at once.
- Sequential.Scheduler.Run: processes at most a given number of events, since a model may schedule events for ever.
- `tw_eventq_splice`, `tw_eventq_alloc` and the compaction of MPI request arrays (core/network-mpi.c:241-300) are left out.

Event queues:

- EventQueue.Queue.PushList: the commit handler, the release of delta buffers and the removal from the index are one entry each in the returned list of committed events. The priority of owner values is reduced to what the function tests.
- A child still being sent when its cause is collected is not freed there, so no claim is made that no buffer is lost.

LZ4 and delta states:

- Limited output, streaming, dictionaries, partial decoding, big-endian and 32-bit variants, and the table of pointers are left out.
- Lz4Memory.CommonBytes: the exclusive or with a count of trailing zeros is stated as the number of low bits in which two words agree.
- Lz4Safe.DecompressSafe: stops where the code would read past its input; offsets of zero are not noticed by the code, and then nothing is said of the bytes produced; checks for wrapped pointers are not modelled.
- DeltaState.Lp.SnapshotDelta: stops where the code would write past the scratch buffer; the first delta buffer is only modelled as far as the state reaches; sizes go up to the compressor's limit.

Priority queue, allocator, generator, indexes:

- SplayPq.Queue.Enqueue: two events that compare equal stop the code with an error; that no queued event has the same key is a precondition. The event's owner field is not part of this class. The other queue implementations are left out.
- BuddyAllocator.Allocator.Free: an address that no block starts at is a precondition; merging inspects a header just past the arena, whose value is the parameter `beyond`, assumed not to look like a free block of the arena's size. Arenas of up to 2^30 bytes.
- ClcgStreams.Stream.GenVal: the floating-point value made of the four components is left out.
- `rng_core_init`, which copies the constants to a second generator with other seeds, is left out.
- HashQuadratic.FindEntry: stops where the code would read past the table. HashQuadratic.Table.Insert takes an identifier that is not stored yet; the kernel's identifiers are unique. Table sizes are unbounded integers.
- AvlTree.Pool.Alloc: the code stops with an error rather than give out the last node; that two are left is a precondition.
- AvlTree.InsertTree: a key that is already held, for which the code prints a message, and AvlTree.DeleteTree: one that is not, for which it stops, are preconditions.
- Option parsing, set-up, clocks, other GVT algorithms and queues, models and analysis LPs are left out.
