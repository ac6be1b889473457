# Verification of the zkVM crate

A Dafny 4.11 model of the stateful parts of the zkVM crate, with proofs about every input, every step
and every run. Each object the crate updates in place is a class whose methods are proved against a
specification function on a plain value; what the crate promises is then proved about those functions
and about runs of them. `dafny verify dfyconfig.toml` checks the whole project.

| file | models | and proves |
|---|---|---|
| `Consensus.dfy`, `ConsensusSafety.dfy` | voting and finalisation | accountable safety, exact finalisation, block packing, what a round does |
| `Proposer.dfy`, `Divisibility.dfy` | stake-weighted proposer choice | the stake walk is an exact partition; when a proposer exists, who can ever be one |
| `Sync.dfy`, `SyncSafety.dfy` | the state-sync scheduler | request conservation, which requests time out, retry budget, work conservation, what idle means |
| `Vm.dfy`, `VmRuns.dfy`, `VmOutcomes.dfy`, `VmPrograms.dfy`, `VmIdioms.dfy` | the metered stack machine | metering, two-run theorems, how each opcode ends a run, sequencing, relocation, compiled expressions, what short programs do |
| `PageTable.dfy`, `LruCache.dfy`, `Gc.dfy` | pages, read cache, mark and sweep | allocator partition and refinement, who may access a page, LRU inclusion, what survives |
| `MemoryManager.dfy`, `MemorySafety.dfy`, `MemoryAccess.dfy` | the memory manager | read-cache coherence, reads return what was last written, permissions by history, what allocations cost |
| `Accounts.dfy`, `StorageReads.dfy` | accounts and storage behind caches | account cache transparency, what a batch leaves, confluence and merging, exactly when a storage read is stale, what a revert restores |
| `Collections.dfy`, `Blocks.dfy` | shared vocabulary, blocks and transactions | a root determines its transactions |

## How the code is read

- Every lock-guarded handler is one atomic step.
- A hash map's iteration order is a parameter `order` that enumerates its keys. It is fixed within one
  handler, because no handler adds or removes a key of the map it iterates over, and arbitrary otherwise.
  The validators never change, so theirs is the same in every round.
- Clocks are parameters. A response's fresh timestamp (`stamp`) and the timeout clock (`now`) are separate.
- Integer overflow, out-of-range slices and indices and division by zero are the outcome `Panic` (or
  `Trap` in the machine), as in a build that checks them. A panic keeps the state reached so far.
- A hash is what was hashed: a block's hash its header, a transactions root the bytes fed to the hasher,
  written as bincode writes them (fixed-width little-endian integers, 64-bit lengths, a tag byte for an
  optional field). In the machine the 32-byte digest is an arbitrary function.
- Serialised accounts decode to what was encoded; bytes that are no account decode to an error.
- Clock values and statistics counters are unbounded integers. So is the retry counter: `RetryBudget`
  bounds it by the number of submissions.

## Where the code and its tests or comments differ

- `STORE` and `LOAD` take their address from the stack. The sample program and several tests write an
  operand byte after them instead; `SampleProgramUnderflows` proves what the sample does.
- `CREATE` pushes the address below the contract; a test expects the contract first.
- `handle_response` stamps the request it looks for with the time of arrival, so a response takes a
  request out of flight only if it arrives at the instant the request was stamped
  (`ResponseAnswersOnlyItsInstant`). A test expects otherwise.
- `select_proposer` reduces its value modulo the number of validators rather than the total stake. The
  walk itself is proportional to stake; the values it is given are not. Over all rounds they are the
  multiples, below the number of validators, of its greatest common divisor with the total stake
  (`ReachedExactly`), which decides who can ever propose (`EverProposes`) and when one validator
  always does (`FirstProposesForever`); of two validators with equal stake one may never propose
  (`EqualStakeNeverProposes`).
- A round assembles a block and drops it. What it took off the queue is in no block afterwards
  (`RoundExactly`), and as the height is never raised, every block assembled has number one
  (`AssembledIsNumberOne`).
- Only the start that leaves idle counts its peer, so the peer count of a sync never exceeds one
  (`PeerCountIsAtMostOne`).
- An idle scheduler is handed requests without leaving idle, so idle stops meaning done
  (`IdleMeansDoneExactly`), and it reports no stall until it is started (`IdleUntilStarted`).
- Sweeping compares marks, which are original indices, with current ones, which shift with every removal
  (`KeepsExactlyRootsWhenLeading`). The manager never makes a segment a root, so a due collection drops
  every segment, also when the allocation it precedes then fails (`SegmentsStayUnlessDue`).
- A cached read ignores the size asked for (`ReadGivesRequestedSize`), and an address reaches only the
  first page of its segment (`AllocatedReadsWholeWithinPage`). A cached read also ignores permissions, so
  protecting or deallocating an address does not stop it from being read (`ProtectDecides`,
  `DeallocatedIsRefused`).
- Deallocation frees one page, whatever its segment took, and an allocation that runs out of pages keeps
  those it got (`DeallocatesExactly`, `AllocationTakesPages`).
- The jumps and comparisons have prices but no implementation: they end a run as invalid opcodes
  (`InvalidExactly`).
- A storage read is stamped with its own block number, and updates do not touch the storage cache, so a
  read at a block no newer than an earlier one returns what that one found (`ReadIsGoverned`,
  `StaleRead`).
- A test expects a block with a default transactions root and no transactions to verify; the root of an
  empty list is a hash like any other.

## Model

| member | source | states |
|---|---|---|
| ConsensusSafety.AccountableSafety | src/network/consensus.rs:109-150 | if blocks with different hashes are ever finalised at one height, at any two moments of a run, more than a third of all validators had votes counted for both, and they are equivocators at that height |
| ConsensusSafety.FinalizedHeaderIsStable | src/network/consensus.rs:128-150 | while at most a third of the validators equivocate at a height, the header finalised there never changes and never disappears |
| ConsensusSafety.FinalizedWasVoted | src/network/consensus.rs:136-147 | every finalised block sits at its own height and more than two thirds of the validators had votes counted for its hash, despite vote resets and clean-ups |
| ConsensusSafety.PendingLacksQuorum | src/network/consensus.rs:119-146 | in every reachable state a pending block is filed under its own hash and has a vote set of at most two thirds of all validators |
| ConsensusSafety.LiveVotesWereCounted | src/network/consensus.rs:122-138 | live vote sets only hold voters whose vote for that hash was counted at some time |
| ConsensusSafety.VotersAreValid | src/network/consensus.rs:205-211 | every counted voter is a known validator with at least the threshold stake |
| ConsensusSafety.PendingUntilQuorum | src/network/consensus.rs:109-150 | from its last submission on, under any interleaving of duplicate votes, voters below the stake threshold, votes for other blocks, rounds and clean-ups, a block is pending iff three times its distinct valid supporters do not exceed twice the validators, and while it has a vote set that is exactly those supporters |
| ConsensusSafety.QuorumFinalizes | src/network/consensus.rs:141-145 | the event after which three times the supporters first exceed twice the validators inserts exactly that block at exactly its height and removes exactly it from pending |
| ConsensusSafety.FinalizationComesFromPending | src/network/consensus.rs:128-150 | every change to the finalised blocks is one insertion of a pending block by the vote that completes its quorum |
| ConsensusSafety.PendingIsSubmittedSuffix | src/network/consensus.rs:95-107 | pending transactions are always the most recent submitted ones, in order: none overtakes, repeats or is invented |
| ConsensusSafety.CleanupKeeps | src/network/consensus.rs:181-193 | a clean-up keeps exactly the vote sets of pending blocks and drops only the oldest transactions, only beyond ten thousand |
| ConsensusSafety.BlockPacking | src/network/consensus.rs:237-285 | create_block takes the longest prefix of the queue that fits, taken followed by remaining is the old queue, every header field is as stated, and the block verifies iff every transaction taken is signed |
| ConsensusSafety.FittingIsMaximal | src/network/consensus.rs:241-253 | the transactions taken fit and one more would not |
| ConsensusSafety.RoundExactly | src/network/consensus.rs:152-168 | a round counts one up and succeeds iff that round selects a proposer; then it takes the longest fitting prefix off the queue, and as pending and finalised blocks stay the same, those transactions are in no block; otherwise it takes nothing |
| ConsensusSafety.RoundsAreCounted | src/network/consensus.rs:152-156 | after any run the round is the number of rounds processed, until it would overflow, and the height is zero |
| ConsensusSafety.AssembledIsNumberOne | src/network/consensus.rs:256-283 | so in any run every assembled block has number one, and only a block finalised at height zero can be its parent |
| Blocks.RootDeterminesTransactions | src/network/consensus.rs:286-293 | though nothing separates the transactions fed to the hasher, different lists feed it different bytes |
| Blocks.HashAdmitsOneBody | src/network/message.rs:121-153 | blocks with one hash have one header, and those of them that verify have the same transactions, all signed |
| Blocks.SizeIsLength | src/network/consensus.rs:242-246 | the size counted against a block is the length of the serialised transaction |
| Consensus.ConsensusEngine.ProcessBlock | src/network/consensus.rs:109-126 | the in-place handler is the specified step: block filed under its hash, vote set reset |
| Consensus.ConsensusEngine.SubmitVote | src/network/consensus.rs:128-150 | the in-place handler is the specified step, reports exactly the voters who are unknown or below the stake threshold, and takes a block out of pending iff with this vote three times its voters exceed twice the validators |
| Consensus.ConsensusEngine.ProcessTransaction | src/network/consensus.rs:95-107 | the in-place handler is the specified step |
| Consensus.ConsensusEngine.ProcessRound | src/network/consensus.rs:152-168 | counts the round, then panics, reports no proposer, or assembles and drops a block, as specified |
| Consensus.ConsensusEngine.CreateBlock | src/network/consensus.rs:237-275 | the packing loop takes exactly the specified prefix and builds the specified block |
| Consensus.ConsensusEngine.Cleanup | src/network/consensus.rs:181-193 | keeps the vote sets of pending blocks and the newest 10000 transactions |
| Proposer.StakePartition | src/network/consensus.rs:227-232 | for any enumeration order, exactly the values of a validator's own stake interval select it: as many values below the total as it has stake |
| Proposer.WalkSelectsStaked | src/network/consensus.rs:227-234 | a value selects a validator iff it is below the total stake, and one that has stake |
| Proposer.RoundSelects | src/network/consensus.rs:217-235 | a round selects someone iff the round times the total stake, modulo the number of validators, is below the total stake, and panics iff that total overflows or there are no validators |
| Proposer.RoundSelectsAt | src/network/consensus.rs:217-235 | and it selects the validator in whose stake interval that value lies |
| Proposer.StakeSumIsOrderFree | src/network/consensus.rs:219-221 | the total stake is the same for every enumeration order |
| Proposer.ProposerAlwaysFound | src/network/consensus.rs:219-235 | no round from the first on ends in "no valid proposer" iff the total stake is at least the number of validators |
| Proposer.ReachedExactly | src/network/consensus.rs:223-225 | over all rounds from the first on, the values the walk is given are exactly the multiples, below the number of validators, of its greatest common divisor with the total stake |
| Proposer.EverProposes | src/network/consensus.rs:217-235 | a validator is selected in some round iff the first such multiple at or above the stake enumerated before it lies in its own stake interval and below the number of validators |
| Proposer.FirstProposesForever | src/network/consensus.rs:217-235 | the first validator enumerated proposes in every round iff its stake exceeds the number of validators less that divisor |
| Proposer.EqualStakeNeverProposes | src/network/consensus.rs:217-235 | of two validators with a stake of 1000 each, one is selected in every round and so the other never |
| Proposer.ProductFits | src/network/consensus.rs:223-224 | round times total stake never overflows a u128 |
| Proposer.SelectProposer | src/network/consensus.rs:217-235 | the summing and walking loops compute the specified selection, panics included |
| SyncSafety.Conservation | src/network/sync.rs:80-140 | in every reachable state copies queued and in flight never exceed copies submitted, and equal them unless the request was answered or reached the retry limit |
| SyncSafety.RetryBudget | src/network/sync.rs:142-201 | timeouts so far plus copies in flight never exceed two plus the number of submissions |
| SyncSafety.SubmittedOnceTimesOutAtMostLimit | src/network/sync.rs:152-165 | a request submitted once times out at most three times in any run |
| SyncSafety.TimeoutsConserve | src/network/sync.rs:183-211 | timeouts lose and duplicate nothing, even among equal requests, and add one failure per copy taken out of flight |
| SyncSafety.TimeoutsExactly | src/network/sync.rs:183-201 | a timeout check leaves exactly the requests stamped at most 30 s ago in flight, copy for copy; every older one has all its copies in the queue, behind what waited there, and one failure counted for each |
| SyncSafety.FailuresExactly | src/network/sync.rs:80-122 | over a whole handler a request's failures rise by its copies in flight if it is older than 30 s and not the one just answered, and otherwise never change |
| SyncSafety.DisconnectConserves | src/network/sync.rs:124-140 | a disconnection moves requests to the queue and loses nothing |
| SyncSafety.DispatchHasShape | src/network/sync.rs:146-173 | dispatch works through a queue prefix in order, puts exactly its unanswered requests in flight, and stops at the end, at a request no peer has room for (moved to the back), or at one out of retries (dropped and reported) |
| SyncSafety.WorkConserving | src/network/sync.rs:142-181 | when a handler of a reachable scheduler processes the queue successfully, the queue is empty or every peer holds exactly a full batch |
| SyncSafety.RunIsBounded | src/network/sync.rs:103-108 | in every reachable state no peer holds more than a batch, and nothing in flight has been answered |
| SyncSafety.IdleExactly | src/network/sync.rs:175-178 | after a handler the scheduler is idle iff the handler processed the queue successfully leaving nothing to do, or it was idle and was not started |
| SyncSafety.BecomesIdleWhenDone | src/network/sync.rs:175-178 | becoming idle means nothing is queued or in flight |
| SyncSafety.ProgressExactly | src/network/sync.rs:110-137 | while syncing, the current block is the highest answered so far, the peer count falls by one per disconnection, and the target stays |
| SyncSafety.StallIsReported | src/network/sync.rs:80-122 | a request or response handled by a syncing scheduler ends in the error status iff more than 300 s passed since the last progress, this handler's included, and it did not finish the work |
| SyncSafety.IdleMeansDoneExactly | src/network/sync.rs:80-181 | an idle scheduler with nothing to do stays idle on every event but a start, and has nothing to do afterwards iff the event did not hand it a request still unanswered and with retries left |
| SyncSafety.IdleUntilStarted | src/network/sync.rs:61-211 | in any run an idle scheduler stays idle, and so reports no stall, until it is started |
| SyncSafety.PeersExactly | src/network/sync.rs:61-140 | in any run requests can be sent to exactly the peers started and not disconnected since |
| SyncSafety.StartAndDisconnect | src/network/sync.rs:61-140 | a start begins a sync only from idle, at block zero with one peer on its own clock, and touches no request; a disconnection requeues the peer's requests in order and lowers the peer count |
| SyncSafety.PeerCountIsAtMostOne | src/network/sync.rs:61-78 | in any run a sync counts at most one peer and has target block zero |
| SyncSafety.ResponseAnswersOnlyItsInstant | src/network/sync.rs:92-108 | a response takes a request's copies out of flight iff it names it and arrives at the clock reading it was stamped with |
| Sync.RetainLoopIsUnexpired | src/network/sync.rs:188-200 | removing, one by one, all equals of each expired request leaves exactly the unexpired ones |
| Sync.StateSync.StartSync | src/network/sync.rs:61-78 | the in-place handler is the specified step |
| Sync.StateSync.HandleRequest | src/network/sync.rs:80-90 | the in-place handler is the specified step, errors included |
| Sync.StateSync.HandleResponse | src/network/sync.rs:92-122 | the in-place handler is the specified step, errors included |
| Sync.StateSync.HandlePeerDisconnected | src/network/sync.rs:124-140 | the in-place handler is the specified step |
| Sync.StateSync.ProcessSyncQueue | src/network/sync.rs:142-181 | the dispatch loop terminates and computes the specified dispatch |
| Sync.StateSync.CheckTimeouts | src/network/sync.rs:183-211 | the loop over peers computes the specified timeouts and stall check |
| Sync.StateSync.TimeOutPeer | src/network/sync.rs:187-200 | one peer's retain-then-push loop keeps the unexpired requests, queues the expired ones in order and counts each |
| VmRuns.Metering | src/vm.rs:126-132 | in every outcome, initial gas is final gas plus the charges taken along the run, and every paid instruction costs at least two |
| VmRuns.OffsetsIncrease | src/vm.rs:185-186 | dispatched offsets strictly increase inside the program, so no run takes more steps than there are bytes left |
| VmRuns.HaltOnlyPops | src/vm.rs:194-364 | however an instruction halts the machine, memory, call stack and offset are as before and the stack only lost values from its top |
| VmRuns.GasShift | src/vm.rs:126-365 | a run that does not run out of gas, started with any amount more or less, has the same outcome, stack, memory, offset and frames and ends with exactly that much more or less gas; if that would be below zero it ends out of gas |
| VmRuns.StackFraming | src/vm.rs:182-365 | a completed run placed on top of other values leaves them under its result and changes nothing else, or overflows exactly when they are too many for its highest push |
| VmRuns.VisitedAreOk | src/vm.rs:196-361 | from a good state, every state of the run has at most 1024 values, no negative integer and no balance beyond an i64 |
| VmRuns.CastsLoseNothing | src/vm.rs:228-361 | in every state of every run from the start, integer-to-unsigned and balance-to-integer casts lose nothing |
| VmRuns.CastsWrap | src/vm.rs:228-361 | in general the casts wrap modulo 2^64 and undo each other |
| VmOutcomes.InvalidExactly | src/vm.rs:363 | a paid instruction ends the run as an invalid opcode, its price gone and nothing else changed, iff its opcode is not one of the eleven implemented |
| VmOutcomes.StopCompletes | src/vm.rs:188-362 | STOP completes the run whatever follows; an instruction that cannot be paid ends it out of gas and changes nothing |
| VmOutcomes.UnderflowExactly | src/vm.rs:207-361 | a paid instruction ends the run with a stack underflow iff the stack does not start, from the top, with the values its opcode needs, each of its kind; nothing is written and only values from the top are gone |
| VmOutcomes.PushFails | src/vm.rs:196-206 | PUSH panics iff it is the last byte of the program, and elsewhere overflows iff the stack holds 1024 values |
| VmOutcomes.CreateFails | src/vm.rs:250-270 | CREATE takes its operands, then 32000 gas or fails, then panics iff its code reaches beyond the program |
| VmPrograms.RunsInSequence | src/vm.rs:182-365 | a program followed by more code does what it did alone, or runs off its end into that code in the same state |
| VmPrograms.Relocation | src/vm.rs:196-361 | a run that uses no absolute program offset is the same wherever its code is placed, errors and panics included |
| VmPrograms.Sequencing | src/vm.rs:182-365 | running p then q as one program is running q as its own program from where p ended |
| VmIdioms.HashingIsNotRelocatable | src/vm.rs:330-347 | SHA3 code moved behind one other byte hashes that byte instead, and ends differently iff the two bytes' digests differ |
| VmPrograms.CompiledExpression | src/vm.rs:196-227 | postfix code of any expression completes iff no subexpression overflows, the gas covers 3 per leaf and 5 per operator and the stack can hold it, and then leaves exactly its value; otherwise it stores nothing and fails for one of those reasons that holds |
| VmPrograms.CodeRuns | src/vm.rs:196-227 | the same code pushes its value wherever it stands in a program and whatever is on the stack |
| VmIdioms.ExpressionComputes | src/vm.rs:196-227 | the code of any expression without overflow is an operand: code that pushes a known value at a known price wherever it stands |
| VmIdioms.StoreThenLoad | src/vm.rs:228-248 | after storing at one computed address, loading another gives the stored value if the addresses are equal in value, however they are computed, otherwise what was there before, or the error for an unused address |
| VmIdioms.DeployThenBalance | src/vm.rs:250-365 | a contract made from inline code of any size with a computed balance and stored at a computed slot: its address reads that balance if the slot is the address's first byte, otherwise that of the contract that was already there, or fails |
| VmIdioms.DeployThenCall | src/vm.rs:250-313 | calling that address opens a frame with the computed value and gas limit and the code of the contract found that way, or fails if there is none |
| VmIdioms.ReturnReads | src/vm.rs:314-329 | RETURN hands the innermost frame, and no other, the program bytes two computed operands address, reads nothing without a frame, and panics iff there is one and they reach beyond the program |
| VmIdioms.HashReads | src/vm.rs:330-347 | SHA3 pushes the digest of the program bytes two computed operands address, and panics iff they reach beyond the program |
| VmIdioms.NothingLeftToStore | src/vm.rs:228-236 | the code of any expression followed by STORE, on an empty stack and whatever follows, never stores and never completes; it underflows iff the expression and the STORE are affordable |
| VmIdioms.SampleProgramUnderflows | src/main.rs:11-19 | so the sample program never stores; with gas of 39 or more it ends in a stack underflow at its STORE |
| Vm.VM.UseGas | src/vm.rs:126-132 | takes the amount or fails and takes nothing |
| Vm.VM.Execute | src/vm.rs:182-370 | the interpreter loop computes the specified run: outcome, stack, memory, offset, gas and call stack |
| Vm.VM.ExecuteInstruction | src/vm.rs:194-364 | every opcode's in-place effect is the specified one, partial effects of failures included |
| Vm.VM.Create | src/vm.rs:250-281 | pops, second charge, slice and pushes as specified |
| Vm.VM.Call | src/vm.rs:282-313 | pops, contract lookup and frame as specified |
| Pages.AllocationIsFresh | src/memory/page_table.rs:38-54 | allocation keeps live and free ids partitioning those handed out, never returns a live id, touches no other page, and changes nothing when it fails |
| Pages.FreeingKeepsPartition | src/memory/page_table.rs:56-60 | freeing keeps the partition and every other page; freeing twice is freeing once |
| Pages.FailsOnlyWhenFull | src/memory/page_table.rs:38-45 | live plus free ids are the ids handed out, new ids count up from the live pages, and allocation fails iff 2^32 - 1 pages are live |
| Pages.FreedIsReusedFirst | src/memory/page_table.rs:38-60 | freeing a live page and allocating again gives its id back and changes nothing but that the page is blank |
| Pages.FlagsAreByHistory | src/memory/page_table.rs:38-101 | after any history a page is there, with its flags, exactly as its last allocation, freeing, flag setting and admitted writes say |
| Pages.AccessExactly | src/memory/page_table.rs:62-101 | a read goes through iff that history left the page there and present and the range lies in it, a write iff it is writable as well; otherwise it faults, or panics when the range's end overflows |
| Pages.HoldsLastWritten | src/memory/page_table.rs:38-94 | after any history each byte of a live page is the one last successfully written there since its last allocation, or zero |
| Pages.ReadsSeeWrites | src/memory/page_table.rs:62-75 | a successful read returns exactly the requested bytes as last written |
| Pages.PageTable.AllocatePage | src/memory/page_table.rs:38-54 | the in-place allocation is the specified one |
| Pages.PageTable.FreePage | src/memory/page_table.rs:56-60 | the in-place freeing is the specified one |
| Pages.PageTable.Read | src/memory/page_table.rs:62-75 | checks in the source's order, then the bytes |
| Pages.PageTable.Write | src/memory/page_table.rs:77-94 | checks in the source's order, then the splice and the flags |
| Pages.PageTable.SetFlags | src/memory/page_table.rs:96-101 | the in-place update is the specified one |
| Lru.HitsCarryOver | src/memory/mod.rs:190-225 | of two caches serving the same accesses and removals, whatever bytes they insert, the larger finds whatever the smaller finds, and has at least as many hits; the smaller stays within its capacity |
| Lru.RunFollowsList | src/memory/mod.rs:190-225 | every run of the cache keeps one list entry per key, in the order of the list model, and has its hits |
| Lru.Inclusion | src/memory/mod.rs:190-225 | on any common sequence of accesses and removals the list of a smaller cache is a prefix of a larger one's, duplicate-free and within capacity |
| Lru.CapacityOnlyHelps | src/memory/mod.rs:190-225 | more capacity never turns a hit into a miss |
| Lru.AccessMovesList | src/memory/mod.rs:199-217 | get, then insert on a miss, moves the list as the inclusion theorem's access does |
| Lru.InsertingKeepsWellFormed | src/memory/mod.rs:209-217 | inserting keeps one list entry per key iff the key is new or was the one evicted |
| Lru.LookingKeepsWellFormed | src/memory/mod.rs:199-207 | a lookup returns the cached bytes, changes no entry and keeps the list matched |
| Lru.DroppingKeepsWellFormed | src/memory/mod.rs:219-224 | a removal drops exactly its key and keeps the list matched |
| Lru.LRUCache.Get | src/memory/mod.rs:199-207 | the in-place lookup is the specified one |
| Lru.LRUCache.Insert | src/memory/mod.rs:209-217 | the in-place insertion is the specified one |
| Lru.LRUCache.Remove | src/memory/mod.rs:219-224 | the in-place removal is the specified one |
| Gc.SurvivorsAreLeadingRoots | src/memory/gc.rs:62-83 | a collection keeps exactly the longest leading run of roots, each at its old index |
| Gc.SurvivesExactly | src/memory/gc.rs:28-91 | in a list of any length a segment survives, in place, iff it and every one before it has the 32-bit index of some shared or owned segment |
| Gc.SurvivesWhenRootsLead | src/memory/gc.rs:28-91 | up to 2^32 segments: iff it and every one before it is shared or owned |
| Gc.KeepsExactlyRootsWhenLeading | src/memory/gc.rs:28-91 | it keeps exactly the roots iff no shared or owned segment follows one that is neither |
| Gc.MarksAreRootIndices | src/memory/gc.rs:47-60 | an index is marked iff its segment is shared or owned |
| Gc.GarbageCollector.Sweep | src/memory/gc.rs:62-83 | the removal loop keeps the segments before the first unmarked index, and freed plus kept is the original count |
| Gc.GarbageCollector.Mark | src/memory/gc.rs:47-60 | the loop marks exactly the truncated indices of the roots |
| Gc.GarbageCollector.Collect | src/memory/gc.rs:28-45 | survivors, counters and the cleared marks |
| MemorySafety.RunIsSound | src/memory/mod.rs:77-172 | over every run without deallocation, whatever is cached for an address is what its page holds now, no two addresses share a page, and the cache stays matched and bounded |
| MemorySafety.ReadYourWrites | src/memory/mod.rs:134-167 | in every reachable manager a read after a write of an address gives the written bytes, and every other address reads as before |
| MemorySafety.ReadsReturnLastStored | src/memory/mod.rs:77-172 | in every run without deallocation, every successful read, cached or not, returns byte for byte what was last successfully written through its address, or zeros |
| MemorySafety.PageHoldsLastStored | src/memory/mod.rs:77-172 | so does the page an address starts; nothing is ever stored through an address not handed out |
| MemorySafety.AllocateIsSound | src/memory/mod.rs:77-112 | allocation moves no page and caches nothing; the address it returns is new and starts a zero page of its own |
| MemorySafety.AllocateAddsSegment | src/memory/mod.rs:86-105 | the new segment is the last one and the address carries its index |
| MemorySafety.SegmentsStayUnlessDue | src/memory/mod.rs:77-112 | in every run, whether an allocation succeeds or fails, the earlier segments are all kept when their total is below the threshold and all dropped otherwise, while their addresses and pages stay in use; only an overflowing total changes nothing |
| MemorySafety.ReadIsSound | src/memory/mod.rs:134-153 | a cached address reads the current page bytes, as many as were cached; any other reads what permissions and page size allow |
| MemorySafety.WriteIsSound | src/memory/mod.rs:155-167 | a write succeeds iff permitted and within the page, and then changes exactly that page and uncaches exactly that address |
| MemorySafety.ReadGivesRequestedSize | src/memory/mod.rs:134-153 | a read gives the requested number of bytes iff the address is cached with that length, or is uncached, readable and the page is large enough |
| MemorySafety.AllocatedReadsWholeWithinPage | src/memory/mod.rs:91-105 | a fresh segment reads back whole, as zeros, iff it fits one page |
| MemorySafety.DeallocationKeepsCoherence | src/memory/mod.rs:114-132 | deallocation keeps the cache current iff the freed address is not cached |
| MemoryAccess.WritesAsGranted | src/memory/mod.rs:155-187 | over runs of every operation on any address, a write is refused and changes nothing iff the last grant on that address (its allocation's, or a later protect, none once deallocated) does not include writing |
| MemoryAccess.ReadsAsGranted | src/memory/mod.rs:134-187 | so is a read of an address that is not cached, by reading; a cached one is read whatever was granted |
| MemoryAccess.ProtectDecides | src/memory/mod.rs:169-172 | protecting an address decides its next write and, unless cached, its next read, and no other address's grants |
| MemoryAccess.AllocationTakesPages | src/memory/mod.rs:77-112 | an allocation makes live the least number of pages that hold the segment and succeeds iff that many ids are left; if not, it keeps all that were; before that it fails for the stated reasons only |
| MemoryAccess.PagesNeededIsLeast | src/memory/mod.rs:91-97 | the number of pages is the least that is enough, and its computation panics iff the size plus a page overflows or pages are empty |
| MemoryAccess.DeallocatesExactly | src/memory/mod.rs:114-132 | a deallocation frees one page, whatever the segment took, moves later segments down, takes that address's permissions and no others, and leaves the cache; beyond the segments it panics |
| MemoryAccess.DeallocatedIsRefused | src/memory/mod.rs:114-187 | afterwards the address cannot be written, nor read unless it was cached, when the old bytes are read |
| MemoryAccess.StatisticsCount | src/memory/mod.rs:77-153 | over any run the counters are the reads of cached addresses, the other reads, and the allocations and deallocations that succeeded |
| Memory.MemoryManager.Allocate | src/memory/mod.rs:77-112 | the in-place operation is the specified one, partial effects of failures included |
| Memory.MemoryManager.Read | src/memory/mod.rs:134-153 | the in-place operation is the specified one |
| Memory.MemoryManager.Write | src/memory/mod.rs:155-167 | the in-place operation is the specified one |
| Memory.MemoryManager.Protect | src/memory/mod.rs:169-172 | the in-place operation is the specified one |
| Memory.MemoryManager.Deallocate | src/memory/mod.rs:114-132 | the in-place operation is the specified one: first page only, cache untouched |
| Memory.MemoryManager.ShouldCollectGarbage | src/memory/mod.rs:174-179 | the total segment size is compared with the threshold, and its overflow panics |
| Accounts.CacheIsTransparent | src/state/mod.rs:146-170 | after any run of account and storage reads, batches and reverts, an account at any block number is exactly what decoding the trie gives |
| Accounts.BatchIsConfluent | src/state/mod.rs:214-229 | a batch leaves the same trie and cache in whatever order its updates complete, and succeeds in one order iff in any other |
| Accounts.BatchIsPointwise | src/state/mod.rs:218-229 | a batch updates each of its addresses once, from its slot before the batch, and no other |
| Accounts.BatchIsReadBack | src/state/mod.rs:214-300 | after a successful batch each of its addresses reads as its old account with its update applied |
| Accounts.BatchExactly | src/state/mod.rs:214-300 | a batch reports the first fault in order of completion and applies every update without one: nonce, each token balance, key hash, storage root, code hash and block read as the update names them or as before; faulty and other addresses read as before |
| Accounts.CachedUpToBlock | src/state/mod.rs:146-170 | an account read or left by an update is served without the trie up to that block, and looked up again after it |
| Accounts.BatchesMerge | src/state/mod.rs:214-300 | two batches of one block that both succeed leave the same trie and caches as their later-wins merge, which succeeds too, whatever orders the updates complete in, if the storage manager composes the writes of addresses that write storage in both |
| Accounts.UpdatesMerge | src/state/mod.rs:267-291 | two successful updates of an account equal their later-wins merge iff the storage manager gives the merged writes the same root, or at most one of them writes storage |
| Accounts.UpdateIsLocal | src/state/mod.rs:247-300 | an update reads and changes only its own address |
| Accounts.StateManager.GetAccount | src/state/mod.rs:146-170 | the in-place lookup is the specified one |
| StorageReads.ReadIsGoverned | src/state/mod.rs:172-196 | after any run a storage read returns what was stored when the governing earlier read happened (the first, since the last revert, with the highest block of those that found a value) if that block is at least its own, and otherwise what is stored now |
| StorageReads.CacheIsGoverned | src/state/mod.rs:172-196 | what is cached for a key is what the governing read found, with its block; nothing is cached iff no read found anything |
| StorageReads.NewerReadsAreCurrent | src/state/mod.rs:172-196 | a read newer than all earlier reads that found something since the last revert is current |
| StorageReads.BatchIsSeenExactly | src/state/mod.rs:172-229 | a read after a batch returns what is then stored iff its block is newer than the cached one or the cached value is stored again |
| StorageReads.StaleRead | src/state/mod.rs:172-300 | a read at block 2, a write in block 2 and another read at block 2: the last returns the old value |
| StorageReads.RevertRestores | src/state/mod.rs:302-315 | after any run and a revert, however often anything is read since, every account reads as the snapshot holds it and every storage key as stored under that account's root, whatever was cached |
| Accounts.StateManager.GetStorage | src/state/mod.rs:172-196 | the in-place lookup is the specified one |
| Accounts.StateManager.UpdateAccount | src/state/mod.rs:247-300 | the in-place update is the specified one, its early returns included |
| Accounts.StateManager.UpdateState | src/state/mod.rs:214-229 | every update of the batch runs and the first error to complete is reported |
| Accounts.StateManager.RevertToSnapshot | src/state/mod.rs:302-315 | the trie becomes the snapshot's and the caches are empty |

## Left out

- The proof system, circuit and cryptography (`src/proof.rs`, `src/circuit.rs`, `src/crypto/mod.rs`): the circuit's constraints do not describe the machine's runs.
- Locks, deadlock and scheduling inside a handler: several handlers take a lock they already hold; the model runs them as if that succeeded.
- Peer networking, message signing, the finalisation timeout, wall-clock time and profiling.
- Machine storage, logs and state root: no opcode writes them.
- Address-space exhaustion when a hash set, vector or page buffer grows beyond memory.
- Validator fields other than stake, and segment fields other than type, size, sharing and owner: no modelled operation reads them.
- The code cache of the state manager (`get_code`) and the storage manager itself, which is an arbitrary function of root and key.
- Witness, proof and snapshot creation at the end of `update_state`; a revert takes the snapshot's trie as given.
- MemorySafety.RunIsSound: covers runs without deallocation that protect only allocated addresses; DeallocationKeepsCoherence says exactly when a deallocation breaks coherence.
- Gc.SurvivorsAreLeadingRoots: for at most 2^32 segments, where truncated indices are distinct; SurvivesExactly states the general result.
