# A verified model of a userspace NVMe driver

The repository lets ordinary programs, also on other machines and on GPUs, drive an NVMe
controller directly: it writes commands into submission rings, rings doorbells, and reads
completions out of completion rings by their phase tag. No count is ever exchanged between driver
and controller. Everything rests on residues: ring positions modulo the ring size, a phase bit, a
wrapped 32-bit difference, and doorbells skipped when two positions are equal.

This project models the parts whose correctness is not visible in any one function, and proves
them over all inputs, all runs and all interleavings:

- **Rings** (`Ring`, `Queue`, `Protocol`, `Safety`). The six inline operations of
  `include/nvm_queue.h` are methods over real queue memory, each proved to take one step of a
  state machine in which any number of submission queues share one completion queue with a
  controller that fetches in order, completes in any order, may read a PRP list again at any time,
  and posts entries with a phase tag (sections 4.1, 4.1.2 and 4.6 of NVM Express 1.3). The
  controller sees memory and doorbells only; counters and logs are history. In every run every
  ring field is a residue or a parity of a counter, and from that follow the safety of submission
  slots, the lossless FIFO on the completion side, exactly-once completion, and skipped doorbells.
- **What the ring arithmetic needs** (`Ring.FullTestExact`, `OddRing`). The full test is right,
  and no command can get lost, exactly when the ring size is a power of two. `nvm_queue_clear`
  takes the smaller of what a page holds and what the controller supports, so other sizes occur.
- **Commands** (`Command`, `Jobs`). The builders of `include/nvm_cmd.h`, in place on queue memory,
  against the reading a controller makes of the entry and its PRP list.
- **A transfer** (`Tiling`, `Planning`, `Transfer`, `Issuing`, `Delivery`, `Termination`,
  `Flushing`, `Fate`, `Collision`, `Reordering`, `Contents`). The producers, the consumer and the
  main thread of `examples/integrity/transfer.c` as threads over the ring protocol. When
  `transfer()` returns, every page has moved between its buffer page and its own blocks by exactly
  one executed command, a write leaving the buffer's contents on the disk and a read the disk's in
  the buffer, whatever the controller does, unless two jobs of one producer clash over a PRP-list
  page; and exactly those plans can lose a page to a conforming controller. The threads cannot
  deadlock and their work is bounded, except that a write can hang at its flush: in some run exactly
  when a producer has `size - 1` or at least `2 * (size - 1)` commands, in every run exactly when it
  has `size - 1`, or any on a ring of two.
- **The read loop** (`ReadBlocks`), which names more blocks than its PRP list describes exactly
  when its commands may exceed one list page.
- **The windowed sender and the barrier** (`WindowJobs`, `Window`, `WindowDelivery`, `Barrier`,
  `Bench`) of the latency benchmark: one sender per queue, and all of them behind the one barrier
  they share. Some run finishes exactly when every window can hold a command and all queues have the
  same number of windows; the linear pattern gives its last queue more pages and can break that.
- **Admin commands** (`Admin`, `Relay`, `Serving`): one call at a time with timeouts, the rings as
  reset really sets them up, the relay to a remote server, and the two together.
- **Re-paging** (`Dma`): host pages into controller pages.
- **The kernel module** (`MapList`, `Kernel`): the sorted intrusive list on heap nodes, and pinned
  pages and DMA mappings as conserved resources. The list operations `Kernel` computes with are
  proved to be those of `MapList` on heap nodes, descriptor by descriptor.

`Modular` holds the arithmetic: `Slot`, `Lap` and `EvenLap` step back one lap at a time, and are
proved to be the remainder, the quotient and its parity. A lemma whose name ends in `Exactly` or
`Exact` states a condition in both directions.

Check everything with `dafny verify dfyconfig.toml`.

## Where code and documentation disagree

The model follows the code.

- `src/regs.h:36-37` and `src/ctrl.c:264-266` put the admin submission size where section 3.1.8 of
  NVM Express 1.3 puts the completion size, and the other way round (`Admin.SizesSwapped`).
- `src/rpc.c:283-294` never acknowledges an admin completion, so the controller stops posting one
  entry short of the size it was told (`Admin.SuccessesExactly`).
- `module/list.c:77-83` means to refuse an address already present, but compares with the node
  before the insertion point, so it refuses address 0 only, and equal addresses stack up
  (`MapList.ListInsert`). `module/map.c:303-304` ignores the result, so what a mapping of page 0
  takes is held by no list and never given back (`Kernel.Module.MapUserPages`).
- `src/dis/rpc.c:118` does not look at the status of the local execution: a failed command answers
  with whatever the reply buffer held, and as a success (`Relay.FaithfulExactly`).
- `examples/integrity/transfer.c:125` retries without submitting, unlike lines 102-106
  (`Flushing.FlushSticksExactly`).

- `module/map.c:93-97` passes a `get_user_pages` result of 0 on as success with the descriptor's
  page array never set (`Kernel.Module.MapUserPages`).

## Model

| member | source | states |
|---|---|---|
| `Ring.FullTestExact` | include/nvm_queue.h:51 | the wrapped 32-bit full test agrees with the true occupancy for every head (the transient head == size included) and tail if and only if the size divides 2^32, if and only if it is a power of two |
| `Ring.OddSizeMissesFull` | include/nvm_queue.h:51 | for every other size a ring with head 1 and tail 0 is full and the test says it is not |
| `Ring.DividingSizes` | src/queue.c:24 | a 16-bit ring size divides 2^32 exactly when it is a power of two |
| `Ring.SqByCounters` | include/nvm_queue.h:47-70 | while the counters stay within one ring: full means enqueued - updated == size - 1, doorbell skipped means nothing unsubmitted, the next identifier is (enqueued + 1) mod 2*size, and enqueue and submit keep the fields residues of the counters |
| `Ring.HeadByCounters` | include/nvm_queue.h:172-180 | the increment and the wrap of the head each keep it the residue of the number of updates |
| `Ring.CqByCounters` | include/nvm_queue.h:110-199 | on the completion side: doorbell skipped means nothing unacknowledged; dequeue and acknowledge keep head, phase and last residues and parity of the counters |
| `Queue.Queue.constructor` | src/queue.c:12-25 | a cleared descriptor with as many entries of 64 (or, for a completion queue, 16) bytes as the page holds, but no more than the controller's |
| `Queue.Queue.SqEnqueue` | include/nvm_queue.h:47-70 | on queue memory: None exactly when the full test holds, otherwise the tail slot at 16 dwords an entry, with memory and fields those of the protocol's enqueue step: the upper half of its dword 0 is the new tail, plus the size on odd laps, and no other memory changes |
| `Queue.Queue.SqSubmit` | include/nvm_queue.h:157-165 | fields and doorbell become those of the protocol's submit step |
| `Queue.Queue.SqUpdate` | include/nvm_queue.h:172-180 | the head becomes that of increment and wrap, nothing else changes |
| `Queue.EntryReads` | include/nvm_util.h:129-132 | of a completion entry the upper half of dword 2 is the queue, the lower half of dword 3 the identifier and bit 16 of dword 3 the tag |
| `Queue.Queue.CqPoll` | include/nvm_queue.h:83-95 | the head entry, at 4 dwords an entry, exactly when bit 16 of its dword 3 equals the phase |
| `Queue.Queue.CqDequeue` | include/nvm_queue.h:110-125 | returns the head entry exactly when bit 16 of its dword 3 equals the phase, and takes the protocol's dequeue step exactly then |
| `Queue.Queue.CqUpdate` | include/nvm_queue.h:191-199 | fields and doorbell become those of the protocol's acknowledge step |
| `Safety.StepKeeps` | include/nvm_queue.h:47-199 | every step of driver or controller keeps the invariant: fields are residues of counters, counters stay within one ring, unfetched commands and unacknowledged entries sit in their slots, each fetched command is open or completed once |
| `Safety.RunKeeps` | include/nvm_queue.h:47-199 | so does every run |
| `Safety.GuardsByCounters` | include/nvm_queue.h:51-89 | every guard, tested on residues, flags and tags, is a comparison of counters |
| `Safety.SubmissionSlotSafety` | include/nvm_queue.h:47-180 | in every run from cleared queues: updated <= fetched <= submitted <= enqueued <= updated + size - 1; what was fetched is the commands as built, in order; full exactly at the bound; the next slot handed out holds no unfetched command |
| `Safety.CompletionFifo` | include/nvm_queue.h:83-125 | in every run dequeue finds an entry exactly when posted > dequeued, it is the next posted one, and every entry stays in its slot until acknowledged |
| `Safety.DequeueKeeps` | include/nvm_queue.h:89 | the phase tag at the head separates a new entry from one a lap old |
| `Safety.CompletedOnce` | include/nvm_queue.h:110-180 | in every run each fetched command is in the controller's hands or completed, never both and never twice; every entry names its queue and identifier |
| `Safety.SkippedDoorbells` | include/nvm_queue.h:157-199 | in every run last == tail exactly when all commands are submitted and last == head exactly when all entries are acknowledged |
| `Safety.IdentifiersAndPages` | examples/integrity/transfer.c:114-117 | identifier of command i is (i + 1) mod 2*size; two commands less than two rings apart have different identifiers and the same PRP page exactly when one ring apart; the page is the identifier mod size, plus 1 |
| `OddRing.CommandsLostExactly` | include/nvm_queue.h:51 | submitted commands the controller will not see exist in some run of a cleared queue of n entries if and only if n does not divide 2^32, that is, is not a power of two |
| `Reordering.PagesCollide` | examples/integrity/transfer.c:114-117 | some run of a conforming controller on a cleared ring whose size divides 2^32 gives a new command the PRP page number of one still being executed if and only if the ring has 4 or more entries |
| `Command.CidReads` | include/nvm_queue.h:66-68 | storing an identifier is read back and leaves the opcode and dwords 1 to 15 alone |
| `Command.HeaderReads` | include/nvm_cmd.h:51-56 | opcode, namespace, PRP mode and no fusing are read back; the identifier survives |
| `Command.DataPtrReads` | include/nvm_cmd.h:64-72 | both pointers are read back; identifier, opcode, namespace and block range survive |
| `Command.RwBlksReads` | include/nvm_cmd.h:80-85 | the start block is read back; the count exactly for 1 to 65536 blocks |
| `Command.NumberReads` | include/nvm_cmd.h:82-83 | a 64-bit block number is read back from the halves its truncating and shifting stores leave |
| `Command.FieldsRead` | include/nvm_cmd.h:51-85 | the dwords and bits in which a controller finds opcode, fuse, PRP mode, identifier, namespace, pointers, start block and count |
| `Command.HeaderStores` | include/nvm_cmd.h:51-56 | dword 0 keeps its upper half, its lower half is the opcode's low seven bits, dword 1 the namespace, all else stays |
| `Command.DataPtrStores` | include/nvm_cmd.h:64-72 | bits 15:14 and 9:8 of dword 0 are cleared and all others kept, dwords 6 to 9 are the pointers, all else stays |
| `Command.RwBlksStores` | include/nvm_cmd.h:80-85 | dwords 10 and 11 are the start block, the lower half of dword 12 the count less one in 16 bits, its upper half and all else stay |
| `Command.DataStores` | include/nvm_cmd.h:153-167 | dwords 6 and 7 are the first page, dwords 8 and 9 nothing, the second page, or beyond two pages the list if there is one |
| `Command.PrpRoundTrip` | include/nvm_cmd.h:111-169 | walking the pointers and list for the returned number of pages gives exactly that prefix of the addresses, and the number is min(n, 1 + page_size/8) with a list and min(n, 2) without |
| `Command.CmdHeader` | include/nvm_cmd.h:51-56 | in place: that entry gets the header of `HeaderReads`, all other memory is unchanged |
| `Command.CmdDataPtr` | include/nvm_cmd.h:64-72 | in place: that entry gets the pointers of `DataPtrReads`, all other memory is unchanged |
| `Command.CmdRwBlks` | include/nvm_cmd.h:80-85 | in place: that entry gets the block range of `RwBlksReads`, all other memory is unchanged |
| `Command.PrpList` | include/nvm_cmd.h:111-129 | the loop overwrites a prefix of the list page with that prefix of the addresses and nothing else |
| `Command.CmdData` | include/nvm_cmd.h:137-169 | nothing for no pages; otherwise the pointers, list contents and page count of `PrpRoundTrip`, with all other memory unchanged |
| `Jobs.RwLayout` | examples/integrity/transfer.c:108-117 | the entry of a read or write dword by dword: opcode 01h if and only if it is a write and 02h otherwise, namespace, pointers, start block and count less one; identifier and all other dwords as they were |
| `Jobs.FlushLayout` | examples/integrity/transfer.c:126-128 | the entry of a flush dword by dword: opcode 00h, no pointers, block 0, count field ffffh |
| `Jobs.FillRw` | examples/integrity/transfer.c:108-117 | queue and PRP memory hold the command of `Jobs.RwLayout` and its list, everything else unchanged; the opcode in memory is 01h for a write and 02h for a read |
| `Jobs.FillFlush` | examples/integrity/transfer.c:126-128 | queue memory holds the flush command of `Jobs.FlushLayout`, everything else unchanged |
| `Jobs.BuildDecodes` | examples/integrity/transfer.c:108-130 | whatever the slot held before, the built command keeps its identifier and a controller decoding it performs the intended move, to the disk for a write and from it for a read, or flush |
| `Jobs.DecodeFrame` | include/nvm_cmd.h:157-161 | rewriting a list page a command does not point to does not change what it means |
| `Jobs.AgreeDecodes` | include/nvm_cmd.h:157-161 | writing another command's list over its own page leaves a command's meaning alone if the two lists agree on the entries they share |
| `Issuing.Issue` | examples/integrity/transfer.c:102-130 | on queue memory and PRP memory: nothing happens exactly when the full test holds; otherwise enqueue, command and list together take the producer's step of the transfer machine, and memory shows the resulting queue and list pages; the tail slot's opcode is 00h for a flush, 01h in a write and 02h in a read |
| `Issuing.OffsetIs` | examples/integrity/transfer.c:116 | PRP page number p begins p pages into PRP memory |
| `Tiling.Conversions` | include/nvm_util.h:45-54 | page-to-block and block-to-page are exact and inverse when blocks divide pages |
| `Tiling.Partition` | examples/integrity/transfer.c:160-173 | the producers' page ranges follow one another from page 0 to ceil(size / page_size), each starting at its own block; all but the last have pages / queues pages and whole pages of blocks, and the last reaches the last block |
| `Tiling.SharePages` | examples/integrity/transfer.c:165-173 | every producer but the last gets pages / queues pages, the last the rest, and its block count does not underflow |
| `Tiling.CutTiles` | examples/integrity/transfer.c:77-121 | the commands of a producer take consecutive page ranges of 1 to max_data_size/page_size pages, each with exactly its own blocks, up to the end of its share; all but the last have max_data_size/page_size pages, so there are ceil(pages / (max_data_size/page_size)) of them |
| `Tiling.TileOf` | examples/integrity/transfer.c:95-121 | every page of the share lies in some command |
| `Tiling.TilesOrdered` | examples/integrity/transfer.c:95-121 | commands' page ranges follow one another without overlap |
| `Transfer.StepKeepsProgram` | examples/integrity/transfer.c:42-135 | every step of a producer, the consumer or the controller keeps threads' places and counters tied to the rings |
| `Transfer.PostedSum` | examples/integrity/transfer.c:183-191 | completions of all queues add up to the entries posted, and no queue has more than its producer counted |
| `Transfer.SumsAgree` | examples/integrity/transfer.c:183-191 | the sums are equal if and only if every queue's counts are, so one shared counter is enough |
| `Transfer.ReturnsWhenComplete` | examples/integrity/transfer.c:183-194 | in every run, when transfer() can return every planned command was issued, completed once and acknowledged |
| `Transfer.Progress` | examples/integrity/transfer.c:48-132 | in every reachable state, unless transfer() can return or a producer is stuck at its flush, some step that moves a counter is enabled |
| `Transfer.StartExists` | examples/integrity/transfer.c:158-175 | for any works that fit and any ring sizes, those `Planning.PlanTransfer` gives included, the threads can start |
| `Termination.AdvancingGrows` | examples/integrity/transfer.c:42-135 | every step that is not a retry or a list reread increases a measure |
| `Termination.TransferTerminates` | examples/integrity/transfer.c:139-194 | in every run the advancing steps are bounded by the plans alone, and reads, and writes whose command counts cannot stick, can always advance until transfer() can return |
| `Flushing.FlushSticksExactly` | examples/integrity/transfer.c:123-130 | some run of a started write sticks a producer at its flush if and only if its commands number size - 1 or at least 2 * (size - 1) |
| `Flushing.StuckForever` | examples/integrity/transfer.c:125 | no later step of anyone frees a stuck producer |
| `Flushing.NeverStuck` | examples/integrity/transfer.c:102-125 | with any other number of commands the producer is stuck in no reachable state |
| `Flushing.CanStick` | examples/integrity/transfer.c:102-125 | for each of those numbers and every ring size a run that sticks is built |
| `Planning.PlanTransfer` | examples/integrity/transfer.c:139-181 | partition and cutting together: the producers' works tile contiguous spans of all pages, every job fits one PRP list page and the count and block fields, and each producer has exactly ceil(pages / (max_data_size/page_size)) jobs, all but the last of max_data_size/page_size pages |
| `Planning.TileFits` | examples/integrity/transfer.c:80-117 | when max_data_size/page_size <= 1 + page_size/8 and a command covers at most 65536 blocks, every tile is expressible as one command |
| `Delivery.StepSound` | examples/integrity/transfer.c:42-135 | while no command in flight is written over, every step keeps each command in flight meaning its own job, with the list in memory and as last read, and every executed command having done it |
| `Delivery.WindowedUndisturbed` | examples/integrity/transfer.c:114-117 | no command is written over while no command is held a whole ring behind the newest |
| `Delivery.PeacefulUndisturbed` | examples/integrity/transfer.c:114-117 | nor, whatever the controller does, when no two jobs of a producer that get one list page disagree about an entry |
| `Delivery.InOrderIsWindowed` | examples/integrity/transfer.c:114-117 | a controller that completes each queue's commands in order never holds one that far back |
| `Planning.CarriesItsPages` | examples/integrity/transfer.c:110-117 | what a job does carries a page, from the buffer to that page's own blocks in a write and the other way in a read, if and only if the page is in its tile |
| `Planning.TouchesItsPages` | examples/integrity/transfer.c:110-112 | a job names no block of a page outside its tile |
| `Planning.OwnerUnique` | examples/integrity/transfer.c:95-181 | no page belongs to two commands, of one producer or of two |
| `Delivery.EveryPageOnce` | examples/integrity/transfer.c:139-200 | end to end: in every run of a plan without a clash, and in every run within the window, when transfer() returns each page below ceil(size / page_size) was moved by exactly one executed command, to its own blocks in a write and from them in a read, and no other executed command named any of its blocks |
| `Contents.ContentsMoved` | examples/integrity/transfer.c:139-200 | what that leaves: carried out in the order of their completion, the commands of a write leave each buffer page's contents in the page's own blocks and the buffer as it was, those of a read the blocks' contents in the page, if buffer pages have addresses of their own, and the disk as it was |
| `Contents.StoresExist` | examples/integrity/transfer.c:139-200 | on any disk and buffer the commands of such a run can be carried out one after the other |
| `Fate.ReturnsExactly` | examples/integrity/transfer.c:123-194 | some run of a started transfer returns if and only if it is a read or no producer has exactly size - 1 commands, or any on a ring of two entries |
| `Fate.RunOn` | examples/integrity/transfer.c:42-194 | from every reachable state no producer of which is past hope, some run of such a transfer goes on until transfer() can return |
| `Collision.LosingRun` | examples/integrity/transfer.c:114-117 | for every plan that clashes: a run of a conforming controller that holds a command back until its list page is rewritten, reads the list again and completes it without moving a page it owns |
| `Collision.LosesExactly` | examples/integrity/transfer.c:74-200 | some run of a started transfer completes a command without moving a page it owns if and only if two jobs of a producer, a multiple of its ring size of 4 or more apart, both need a PRP list and disagree about an entry |
| `Collision.LostUnmoved` | examples/integrity/transfer.c:74-200 | a page lost that way is moved by no command, executed with whatever lists |
| `Collision.LostLater` | examples/integrity/transfer.c:74-200 | and it stays lost whatever follows |
| `Collision.ReturnsWithLossExactly` | examples/integrity/transfer.c:139-200 | some run returns without a page having moved if and only if the transfer can return at all and its plan clashes |
| `Collision.FiveReadsLose` | examples/integrity/transfer.c:95-200 | fifteen pages read by one producer, three to a command, on a ring of four: a started transfer with that plan, and a run of it that returns with a page never moved |
| `Collision.ClashIsMeeting` | examples/integrity/transfer.c:95-121 | with distinct buffer page addresses two jobs clash exactly when they are a multiple of the ring size of 4 or more apart and both exceed two pages |
| `Collision.FewJobsArePeaceful` | examples/integrity/transfer.c:95-121 | a transfer whose producers have no more jobs than their rings have entries does not clash |
| `ReadBlocks.CutReads` | examples/read-blocks/read.c:204-232 | rounds follow one another through all pages of the buffer; every round names just the blocks of the pages it describes if and only if n or max_data_size/page_size is at most 1 + page_size/8; each round asks for max_data_size/page_size pages, or all that are left |
| `ReadBlocks.RoundOf` | examples/read-blocks/read.c:207-232 | every page is described by exactly one round |
| `ReadBlocks.ReadExecutes` | examples/read-blocks/read.c:220-229 | a controller executing the round's command moves the named blocks into the caller's pages if the round is whole, and otherwise runs past the end of the PRP list |
| `Window.StepKeepsWindow` | benchmarks/latency/main.cu:298-397 | every step of sender or controller, building commands included, keeps the window's counts tied to the rings, if the window fits |
| `WindowJobs.MakesPossible` | benchmarks/latency/main.cu:306-318 | a free slot can always be taken and the command built in it: the builders keep its identifier and its list page is within queue memory |
| `WindowJobs.SendLayout` | benchmarks/latency/main.cu:312-318 | the entry of a transfer: opcode 01h if it is a write and 02h if not, its own page and block fields, and beyond two pages the PRP page after the queue's own and those of the commands before it in the window |
| `Window.WindowsSend` | benchmarks/latency/main.cu:298-397 | for any list and repetitions with depth or list shorter than the ring: never throws, all rings empty and both sides in step at every window and flush boundary, every transfer sent once per repetition in order |
| `Window.SenderTerminates` | benchmarks/latency/main.cu:298-397 | for one queue, apart from the barrier of line 324: in every run of a job that fits, with a depth of at least 1 or nothing to send, at most 8 * reps * (total + 1) + 2 steps are not list rereads, and until finished sender or controller has one to take |
| `Window.StepGrows` | benchmarks/latency/main.cu:298-397 | each such step increases a measure of what was sent, fetched, posted, dequeued and freed |
| `Window.FinishesExactly` | benchmarks/latency/main.cu:304-396 | for one queue, apart from the barrier of line 324: some run of a job that fits finishes if and only if its depth is at least 1 or there is nothing to send; a depth of 0 loops without sending |
| `Window.ThrowsExactly` | benchmarks/latency/main.cu:304-310 | the queue-full exception is thrown in some run if and only if there are repetitions and neither depth nor list is shorter than the ring |
| `WindowDelivery.StepSound` | benchmarks/latency/main.cu:298-397 | every step keeps each command in flight of the present window and meaning its own transfer, with the list in memory and as last read |
| `WindowDelivery.SendsCarriedOut` | benchmarks/latency/main.cu:298-397 | in every run of a job that fits the ring and whose transfers each fit one command, under every controller, each executed command moved the pages and blocks of the transfer it was built for, to the disk if that is a write and from it if not, or flushed; the transfers built are those sent, in order, with one flush after each repetition; and at every window and flush boundary each command has been executed exactly once |
| `Barrier.StepKeeps` | benchmarks/latency/barrier.cc:15-36 | every read, store, lock and unlock of any thread keeps the invariant, the reset and flip after the unlock included |
| `Barrier.PhaseSeparation` | benchmarks/latency/barrier.cc:15-36 | under every schedule nobody returns from its r-th wait before all N entered theirs, threads are at most one call apart, and arrived never exceeds N |
| `Barrier.FlipsWhenAllArrived` | benchmarks/latency/barrier.cc:21-26 | at the flip arrived is 0 and every other thread spins in the same call |
| `Barrier.SomeoneAdvances` | benchmarks/latency/barrier.cc:15-36 | when all threads are inside wait some thread's next step changes the state |
| `Barrier.CallsReturn` | benchmarks/latency/barrier.cc:15-36 | when each of N threads makes r calls, under every schedule at most 8 * r * N steps change the state, and until all have returned from all calls some thread has such a step |
| `Bench.StepKeeps` | benchmarks/latency/main.cu:298-397 | with N senders on one barrier: every step of a thread, wait() included, or of a controller keeps every sender and the barrier in their invariants, each thread's returns from wait() equal to the windows it has begun to submit, and raises a common measure unless it changes nothing or only rereads a list |
| `Bench.SubmitTogether` | benchmarks/latency/main.cu:323-328 | in every run nobody submits its k-th window before every other thread has filled its k-th and called wait() |
| `Bench.Alone` | benchmarks/latency/main.cu:381-397 | what a thread does of a run of all threads is a run of a lone sender, so every result about all runs of `Window` and `WindowDelivery` holds of it |
| `Bench.EachSends` | benchmarks/latency/main.cu:298-397 | whatever the other threads do, a thread whose windows fit never throws, has its rings empty at every boundary and has sent every transfer once per repetition in order |
| `Bench.BenchTerminates` | benchmarks/latency/main.cu:479-497 | in every run of loads that fit, each with a depth of at least 1 or nothing to send, at most the sum of 8 * reps * (total + 1) + 2 + 8 * windows steps are neither rereads nor waiting; if all threads have the same number of windows somebody has such a step until all are finished |
| `Bench.BenchFinishesExactly` | benchmarks/latency/main.cu:298-397 | some run of loads that fit finishes if and only if each has a depth of at least 1 or nothing to send and all have the same reps * ceil(total / depth) windows |
| `Bench.LinearFinishesExactly` | benchmarks/latency/main.cu:52-94 | in the linear pattern on two or more queues some run finishes if and only if the last queue's share, which takes the remainder of the pages, needs no more windows than another's |
| `Bench.LinearHangs` | benchmarks/latency/main.cu:78-94 | three pages on two queues, one page to a command and one command to a window, never finish |
| `Bench.StartExists` | benchmarks/latency/main.cu:465-497 | for any loads and ring sizes the threads can start |
| `Admin.LocalAdmin.constructor` | src/rpc.c:304-324 | both rings cleared, no call made |
| `Admin.LocalAdmin.ExecuteCommand` | src/rpc.c:263-297 | keeps submitted == completed + timeouts; EAGAIN, which changes nothing, exactly when size - 1 earlier calls timed out, which is when the full test holds; otherwise the slot after the last command holds the caller's command under the queue's identifier and the doorbell covers it; then ETIME exactly when no entry arrived, else the arrived completion under the caller's identifier |
| `Admin.CallInRun` | src/rpc.c:263-297 | one call of the method on the object is a Call of the machine, the controller's steps while it waits, and a Return exactly if an entry has arrived, a Timeout otherwise; or a Call that finds the queue full |
| `Admin.SizesSwapped` | src/ctrl.c:264-266 | AQA is written as (page_size/64 - 1) * 2^16 + page_size/16 - 1; read as the standard places the fields, bits 11:0 and 27:16, the controller is told page_size/16 submission and page_size/64 completion entries |
| `Admin.InStepRun` | src/rpc.c:263-297 | in every run after reset submitted == answered + timed out + waiting, the submission fields are residues of those counts, and the first page_size/64 fetches find the driver's first commands in order |
| `Admin.FetchFinds` | src/rpc.c:276-281 | in every run after reset the k-th fetch (from 0) looks at position k mod page_size/16 and finds the command last put in that slot, or none of the driver's beyond its page_size/64 slots |
| `Admin.BusyExactly` | src/rpc.c:269-273 | in every run after reset a call finds the queue full exactly when page_size/64 - 1 earlier calls timed out |
| `Admin.AnswersLate` | src/rpc.c:283-296 | in every run after reset each success returns its own completion if no call timed out, and with in-order completion that of the command as many submissions back as calls had timed out before it |
| `Admin.SuccessesExactly` | src/rpc.c:283-294 | some run after reset has k successful calls if and only if k <= page_size/64 - 1 |
| `Relay.RunKeeps` | src/dis/rpc.c:100-180 | in runs where a client's own waits never time out it has one request or one right reply under way while waiting and neither while idle, whatever the other clients do; and no execution is in two replies |
| `Relay.Transparent` | src/dis/rpc.c:100-180 | a client whose own waits have not timed out gets EPERM exactly when the filter rejects its command or forwards a zero dword 0, and 0 otherwise; a forwarded command comes back with the completion its own execution produced, under the identifier in the upper half of its dword 0, or, if that execution failed, with just what the reply buffer held before it; that execution answers no other call of anyone; a rejected command comes back all zero |
| `Relay.FaithfulExactly` | src/dis/rpc.c:116-131 | the completion a forwarded call is given is its execution's, whatever the reply buffer held, if and only if the execution succeeded; when it failed, what the buffer held is given, under status 0 (in every run: `Relay.Transparent`) |
| `Relay.StaleReply` | src/dis/rpc.c:163-171 | after one timed-out wait the next call is handed the reply to the call given up |
| `Serving.HandleRemote` | src/dis/rpc.c:100-131 | on the server's admin object: a rejected command is not submitted; a forwarded one is executed and its reply carries the arrived completion under the command's own identifier, or what the buffer held if the call failed; that is the reply the relay's step adds |
| `Serving.RemoteLate` | src/dis/rpc.c:118 | over relay and admin rings together: a remote call the server executed successfully is given, under its own identifier, the controller's completion of the admin command as many submissions before its own as admin calls had timed out by then, if completions come in order or none has timed out |
| `Serving.AnothersCompletion` | src/dis/rpc.c:118 | after one admin timeout a client's call succeeds with the completion of another client's command |
| `Dma.Populate` | src/dma.c:87-130 | EINVAL exactly for empty mappings or sizes that are no multiple of the controller page; otherwise the list covers the mapping and each entry is the host address of its first byte, never indexing past the host pages |
| `Dma.HostByteIs` | src/dma.c:101-107 | that address is the one of host page o / page_size, plus o mod page_size |
| `Dma.RepagingExact` | src/dma.c:101-107 | every byte has the same bus address through the list and through the host pages if and only if host pages meeting inside a controller page are adjacent on the bus |
| `Dma.DividingPagesJoin` | src/dma.c:101-107 | in particular whenever the controller page divides the host page |
| `MapList.ListFind` | module/list.c:17-37 | the top of the address's stack, NULL exactly when it is empty |
| `MapList.ListInsert` | module/list.c:62-96 | refuses address 0 only; otherwise threads the node in after the strictly smaller addresses and returns their number |
| `MapList.ListRemove` | module/list.c:40-59 | exactly that node leaves the linked list and its pointers are cleared |
| `MapList.InsertSorted` | module/list.c:69-92 | the list stays sorted with distinct nodes |
| `MapList.InsertPushes` | module/list.c:69-92 | insertion pushes on the stack of the node's address and leaves every other stack alone |
| `MapList.RemoveSorted` | module/list.c:40-59 | the list stays sorted with distinct nodes |
| `MapList.RemoveTakes` | module/list.c:40-59 | removal takes just that node out of the stack of its address and leaves every other stack alone |
| `Kernel.Module.constructor` | module/pci.c:446-465 | all slots free, nothing held |
| `Kernel.Module.MapUserPages` | module/map.c:249-309 | the pages claimed and addresses mapped so far enter the list, at the start of the address's 4096-byte page, or, for an address below 4096, those taken are counted lost; on error nothing changes; resources equal what the lists hold and what is lost if and only if it failed, the address is below 4096, or the descriptor claims just the pages that were pinned |
| `Kernel.PageIs` | module/map.c:272 | an address's page starts at the multiple of 4096 at or below it, and two addresses have one page exactly when they agree above bit 11 |
| `Kernel.Module.UnmapUserPages` | module/map.c:312-339 | the mapping leaves the list and each of its pages and addresses is released exactly once |
| `Kernel.Module.CtrlRefGet` | module/map.c:29-43 | takes the slot exactly when its flag was clear; resources unchanged |
| `Kernel.Module.CtrlRefPut` | module/map.c:46-68 | the draining loop ends, releases exactly what the slot held, frees the slot and no other |
| `Kernel.Module.FindRef` | module/pci.c:69-90 | the first slot of the device and owner, none exactly when there is none |
| `Kernel.Module.RefGet` | module/pci.c:136-171 | the first free slot goes to the caller; ENOSPC exactly when all are in use; EBADF without a device |
| `Kernel.Module.RefPut` | module/pci.c:174-198 | the caller's first slot on the device is drained and freed, EBADF exactly when there is none |
| `Kernel.Module.IoctlMap` | module/pci.c:211-243 | its error in each case, and on success one new mapping on the caller's first slot, its pages pinned and addresses mapped, lost if below 4096; on error nothing changes; the table stays valid if and only if it failed, the address is below 4096, or the descriptor claims just the pages that were pinned |
| `Kernel.Module.IoctlUnmap` | module/pci.c:264-285 | the mapping list_find gives for the page on the caller's slot goes, each of its resources released once; EINVAL exactly when the slot has no mapping of the page; on error nothing changes |
| `Kernel.Module.MapUnmap` | module/pci.c:211-285 | a mapping above page 0 that succeeds is undone by unmapping any address of its page: that call returns 0, and table, pins and DMA mappings are as before, whatever other mappings of the page there are |
| `Kernel.Module.RemovePciDev` | module/pci.c:420-426 | the loop ends with every slot of the device freed and all other slots untouched, resources conserved |
| `Kernel.Module.Perform` | module/pci.c:136-433 | any sequence of open, close, map, unmap and device removal by any processes changes the table as each call does in turn and keeps pinned pages and DMA mappings equal to what the live lists hold and what is lost, until a mapping enters a list claiming pages that were not pinned, and loses nothing unless page 0 is mapped |
| `Kernel.InsertHeld` | module/map.c:303-304 | inserting adds exactly the mapping's pages and addresses to what the list holds, unless its address is 0 |
| `Kernel.FindExact` | module/list.c:17-37 | on an ordered list Find gives the first mapping of the address, none exactly when there is none |
| `Kernel.InsertFinds` | module/list.c:62-96 | after an insertion its address finds the new mapping, every other address what it found before |
| `Kernel.InsertRefines` | module/list.c:62-96 | inserting a new node into the heap list is inserting its descriptor, before those of the same address; every other node keeps its own |
| `Kernel.FindRefines` | module/list.c:17-37 | the mapping found is the descriptor of the node on top of the heap list's stack for the address, none exactly when that is empty |
| `Kernel.WithoutRefines` | module/list.c:40-59 | removing a node from the heap list is removing its own descriptor; every other node keeps its own |
| `Kernel.EvictOne` | module/pci.c:420-426 | freeing one of a device's slots brings the table closer to the one with all of them freed |

## Left out

- Weak memory and caching: steps are sequentially consistent and 16-, 32- and 64-bit words are read and written whole.
- Tiling.Ceil: `NVM_PAGE_ALIGN` clears low bits with a mask; the model rounds up, which is the same for the power-of-two page and block sizes it is used with.
- Queue.Queue.CqPoll: of a completion entry only queue, identifier and phase tag are modelled; the controller's submission-head field and the status are not read by these programs' control flow.
- Transfer.StepKeepsProgram: a producer's enqueue and the building of the command and its list are one step; nothing of it is visible to the controller before the submit except the list page.
- Delivery.EveryPageOnce: a command too long for one list page is outside `Planning.PlanTransfer`; what then happens is `ReadBlocks.ReadExecutes`.
- Contents.ContentsMoved: a command's data move as one step, in the order of completion; in `Delivery.EveryPageOnce` no two commands of a transfer touch one page, so the order does not matter.
- Command.CmdData: the debug build, which returns 0 for no pages; with NDEBUG it would read the first address.
- Admin.LocalAdmin.ExecuteCommand: what arrives before the timeout is a parameter; `Admin.CallInRun` ties it to a controller's steps.
- Admin.AnswersLate: what the controller finds beyond the driver's ring is no command of the driver; what executing that memory does is not modelled.
- Relay.Transparent: one message per interrupt with the right length; connection set-up, failed triggers and the shared handle table are not modelled. The filter is a function of node and command; an `rpc_cb` that keeps state and answers the same command differently is not modelled.
- Window.WindowsSend: the timing; which transfers the list holds is arbitrary.
- Bench.LinearFinishesExactly: the transfer starts at block 0 in whole pages; with another start block main.cu:82 takes it off the last queue's blocks once more. Only the number of commands is modelled, `Bench.BenchFinishesExactly` takes any lists.
- Bench.StepKeeps: each thread works on its own queue; main.cu:486 captures the loop's local `q` by reference, and what a thread started after `q` changed would see is not modelled.
- WindowDelivery.SendsCarriedOut: a transfer too long for one list page is outside it; what then happens is `ReadBlocks.ReadExecutes`.
- Kernel.Module.MapUserPages: what get_user_pages and dma_map_page return are parameters; GPU mappings are not modelled.
- Kernel.Module.Perform: calls are taken one after another; races between processes on one slot and character-device creation are not modelled. A mapping that claims pages nobody pinned (a get_user_pages result of 0) ends the sequence: what releasing those pages does to memory is not modelled.
- ReadBlocks.CutReads: the threads of read.c are those of `Transfer` with one producer and no flush, and are not stated again.
- Dma.Populate: memory exhaustion, and overflow of sizes beyond the machine word.
- nvm_cq_dequeue_block: its timing loop; a caller sees an arrival or a timeout.
- nvm_raw_ctrl_reset's register polling and the MQES value 0xffff, for which the ring size would wrap to 0; sizes are at least 2.
- Status packing and error strings, Identify decoding, SISCI and CUDA calls, mmap, ioctl plumbing, argument parsing and printing.
