# Verified model of the bit-sliced timing-model runtime

This project models the parts of the repository whose correctness is not visible from one
function, and proves what they are for:

- the **refill lanes** that turn a trace with wrong-path shadows into a stream of uops for 64
  bit-sliced model instances (`BstfReader`, `Seek`, `RefillSpec`, `RefillProofs`,
  `RefillTheorems`, `RefillRedirect`, `RefillEndings`, `RefillLane`, `Window`, `UopBits`,
  `Refill`, over `Transpose` and `Words`);
- the **cache simulator**: the in-place LRU cache, the three-level hierarchy with
  back-invalidation, write-backs and prefetches, and the one-scan multi-geometry engine
  (`CacheSpec`, `CacheImpl`, `CacheCounter`, `HierarchySpec`, `HierarchyProofs`, `ServedLevel`,
  `StoreProofs`, `LoadWitness`, `Hierarchy`, `StackSpec`, `StackProofs`, `StackTheorems`,
  `StackImpl`, `SweepAttached`, `SweepL1`);
- the **work-stealing pool** as the interleaved steps of n workers and a caller (`PoolSpec`,
  `PoolProofs`, `PoolTheorems`, `PoolOrder`, `Deque`);
- the **front-end simulator**: folded history, circular return stack, three-stage prediction,
  wrong-path expansion and what it teaches, and the overlay files it writes and the reader opens
  (`History`, `Ras`, `FrontendSpec`, `FrontendProofs`, `FrontendHistory`, `FrontendFlow`,
  `FrontendDepth`, `TargetBuffer`, `FrontendWitness`, `Frontend`, `Overlay`);
- the two **netlist compilers**: the prototype generator (`Netlist`, `Schedule`, `Emit`,
  `CellMeaning`, `CycleMeaning`, `NetlistRuns`) and the IR builder with the arithmetic,
  shifting and selecting cell lowerings (`Builder`, `IrWords`, `CellsSpec`, `Cells`,
  `CellsSelect`), and where they disagree (`PmuxAgree`), over `Numbers`;
- the **batch planner** (`Batch`).

Code that changes state is a class or a method with loops, proved equal to a pure step function;
the theorems are then about every sequence of those steps, and the step functions themselves are
held to what a caller sees: `RefillRedirect`, `UopBits`, `ServedLevel`, `FrontendHistory`,
`FrontendFlow` and `PoolOrder` say what each call does in terms of its inputs, the lines or
records held before it and the log. `Arith`, `Options` and `Words` are
shared vocabulary. Lemmas carry `{:induction false}`, so that what proves them is their body.

How to read the refill part: `RefillSpec.Run` is the lane after any sequence of window and
consume calls with arbitrary takes and redirects; its `log` is what the timing model saw.
`RefillSpec.Protocol` is an independent description of a legal log. The log, like the log of
stores and data movements in the hierarchy and the list of finished batches in the pool, exists
only in the model: the simulated caches hold no data, so the log says where each access takes
it, and `StoreProofs.Replay` counts how many stores to a line each place has seen. A call of
`abort()` is the flag `aborted`, which is proved never to be set.

Assumptions, as the source has them: the mapped trace covers all its records and records are at
least 16 bytes wide; sweep set counts are powers of two; no net of a netlist has two drivers;
history lengths below 512 and folded widths below 32. The methods of the cache object need at most 255
ways, and the netlist theorems need cells and flip-flops for which the emitted text is right; both limits are proved to be exact (below).

## Where the code and its comments differ

The model follows the code.

- `lib/runtime/bstf_reader.h:99` gives the wrong-path overlay one byte per shadow record; the
  code derives its depth as overlay bytes per redirect (`Overlay.Derive`).
- `lib/runtime/refill.h:121-126` says a redirect drops all of staging and takes the branch most
  recently consumed; the code keeps the correct-path prefix up to the first staged branch and
  looks at what was consumed only when no staged branch has a readable shadow
  (`RefillSpec.LaneEnter`).
- `lib/runtime/batch.c:59` calls the growth of the batch array impossible in theory; `Batch.Plan`
  says exactly when it happens, and one instance for each of nine simpoints reaches it
  (`Batch.DistinctGrowFromNine`).
- `prototype/gen.py:71` lists `$ne` as an orderable cell, but there is no rule that emits it.
- `bstf_cur_seek_index` accepts the index one past the last record and then reads deltas there
  (`Seek.SeekIsWalk` says exactly when that matters).

## What holds only under a condition

Each is proved in both directions, for all inputs.

- Loads see the last store to their line if and only if there is an L1D and no write-back of it
  can go past a copy in L3: with L2 off and L3 on, `l2_insert` sends a dirty L1D victim straight
  to memory, and later loads find the older copy in L3 (`LoadWitness.LoadsCurrentIff`).
- A cache set behaves like the list of its lines if and only if it has at most 255 ways
  (`CacheCounter.CounterIsExactIff`).
- With wrong-path training on, depth changes the predictor's state, its update count included,
  if and only if the wrong path reaches a known block with an executed conditional branch
  (`FrontendDepth.DepthMattersIffReached`). With the code's buffer and counters of two or more
  bits, depth makes no difference to the counters on any trace if and only if training is off
  (`FrontendWitness.IndependenceNeedsTrainingOff`).
- The text of a netlist cell is right if and only if `Netlist.Faithful` holds of its widths and
  sign: `$eq` compares only the low bits of a wider B, truth values drive one output bit, and a
  signed B narrower than its sum is padded with zeroes (`CellMeaning.TextRightIff`). The update
  of a flip-flop is right if and only if enable and reset act when high, the reset is to zero,
  and one with both ports resets even when disabled (`Netlist.FfTextRightIff`).
- A sweep attached to a first-level cache counts that cache's hits in every run if and only if L2
  is off or not inclusive (`SweepL1.SweepExactIff`).
- The two lowerings of `$pmux` agree if and only if the select is one-hot (`PmuxAgree.AgreeIffOneHot`);
  cutting A before a right shift is harmless if and only if the bits cut off are what the shift
  brings in (`Cells.CutFirstIff`).
- A lane that speculates with the end-of-trace flag set is not refilled
  (`RefillTheorems.SupplyStopsIffEof`), and every short trace that opens with a long shadow gets
  there (`RefillEndings.SupplyCutShort`).

## Model

| member | source | states |
|---|---|---|
| BstfReader.Advance | lib/runtime/bstf_reader.h:173-200 | the loop takes as many single steps as there are records, counts them, and stops short only without a record |
| BstfReader.CpAvail | lib/runtime/bstf_reader.h:123-134 | the cursor that walked i records still has one exactly when i is below the record count, and that record is mapped |
| Seek.SeekIndex | lib/runtime/bstf_reader.c:234-245 | refuses an index past the record count, else lands on record idx with the sum of the deltas of records 1..idx |
| Seek.SeekIsWalk | lib/runtime/bstf_reader.c:234-245 | with 16-byte records seeking equals walking if and only if idx is a record's index or the bytes past the last record carry no deltas |
| Seek.WalkIs | lib/runtime/bstf_reader.h:173-200 | walking n records from record i takes exactly n steps and ends at the position of record i + n |
| Seek.IndexOfWalk | lib/runtime/bstf_reader.c:229-232 | the index computed from a cursor inverts walking |
| RefillTheorems.EveryRunIsExact | lib/runtime/refill.c:47-318 | main theorem: for every input sequence no assertion fires, staging is bounded, the log is legal, and the correct-path uops delivered are exactly records 0..cp_consumed-1 in order |
| RefillTheorems.StagingContinuesDelivery | lib/runtime/refill.c:47-318 | in every reachable state staging is the next correct-path records in order, then wrong-path entries only, and delivered count plus that prefix is the cursor's index (correct path) or the saved resume index (shadow, starved) |
| RefillTheorems.ProtocolDeliversInOrder | lib/runtime/refill.c:47-318 | any log the protocol accepts delivers a prefix of the trace, each record once and in order |
| RefillTheorems.WrongThenCorrectNeedsLeave | lib/runtime/refill.c:47-83 | after a wrong-path delivery no correct-path one comes before a leave |
| RefillTheorems.CheckAlwaysPasses | lib/runtime/refill.c:345-375 | the self-check returns 0 in every reachable state, and with at_eof exactly when the whole trace was delivered, as it was once the done bit is set |
| RefillRedirect.RedirectEnters | lib/runtime/refill.c:212-255 | main theorem on redirects: in every reachable state on the correct path, a call that takes n entries and redirects enters the branch at p if and only if the head left is not in the block of the branch left last, and p is the first marked entry left if its shadow is readable, else the last marked entry taken in this call with a readable shadow; otherwise nothing but the deliveries is added, and the two refusal counters say which refusal it was |
| RefillRedirect.RunRemembers | lib/runtime/refill.c:163-275 | in every reachable state books and counters are readings of the log: a block counts as resolved exactly if its branch was left last, the highest branch is the one entered last, and enters, leaves, correct and wrong deliveries are counted exactly |
| RefillRedirect.MarkedMeansUnspent | lib/runtime/refill.c:18-27 | staged correct-path entries are the next records, and one carries the mark if and only if it has a shadow and lies past the last branch entered |
| RefillRedirect.StepLog | lib/runtime/refill.c:277-318 | every other call hands over exactly the entries it takes, in order, and a redirect out of the shadow adds a leave exactly if the lane was speculating |
| RefillRedirect.RedirectRefills | lib/runtime/refill.c:311-316 | after any redirect the lane is full, or has staged the rest of the trace, or starves |
| UopBits.EveryUopIsItsRecord | lib/runtime/refill.c:18-83 | every uop of every run, bit by bit: a correct-path one shows the record whose index is the number of such uops before it, with the event bytes at the summed deltas; a wrong-path one shows that record of the shadow of the branch entered last, with the wrong-path event bytes |
| UopBits.WindowShowsRecords | lib/runtime/refill.c:86-136 | in every reachable state a faithful window shows in slot k of a lane the record k places on, every field at its bits, its memory event, and for slot 0 its front-end event; the same for wrong-path slots |
| UopBits.EntryShows | lib/runtime/bstf_reader.c:307-323 | for every record and mark: wrong path 31, block end 30, serialize 29, store 28, class 24-27, latency 20-23, first source 13-19, second 6-12, destination 0-5, event bytes 32-47, shadow mark 48 |
| UopBits.CpUopShows | lib/runtime/bstf_reader.h:137-166 | uop i of the trace is record i, its event bytes are those at the sums of the deltas of records 1 to i, and the second is zero unless it is a load, store or atomic |
| UopBits.ShadowUopShows | lib/runtime/bstf_reader.c:254-284 | shadow record m of a branch is the record at its place in the file, its front-end event is the byte of its wrong-path block, one per block up to the depth, its memory event the m-th of its shadow |
| UopBits.ShadowReaches | lib/runtime/bstf_reader.c:254-260 | the shadow of a record has a record m if and only if m is below its length and the record lies in the file |
| RefillEndings.FlushThenTakesComplete | lib/runtime/refill.c:86-331 | from every reachable state, a flush and then as many windows with takes of at least one as records are missing and one more finish the lane, with the whole trace delivered in order |
| RefillTheorems.WindowNeverStalls | lib/runtime/refill.c:86-136 | after a window call a lane on the correct path has four entries staged or every record that is left, so it is done or shows something |
| RefillTheorems.GatherFills | lib/runtime/refill.c:47-83 | gather stops only full, at the end of the trace, or starved, and never leaves or enters the correct path |
| RefillTheorems.StarvedMeansWholeShadow | lib/runtime/refill.c:61-82 | a starved lane has staged every record of the entered branch's shadow; with an empty buffer the model has seen them all |
| RefillTheorems.SupplyStopsIffEof | lib/runtime/refill.c:92-100 | while speculating, a low window is refilled or starves if and only if the end-of-trace flag was clear |
| RefillEndings.SupplyCutShort | lib/runtime/refill.c:47-136 | a short trace that opens with a long shadow reaches, by a redirect in the first cycle and takes over any number of cycles that leave less than a window, a state with shadow records left that no window call refills and that is neither starved nor done |
| RefillTheorems.ShadowCursorAt | lib/runtime/bstf_reader.h:173-200 | after m shadow records the cursor is m records on, the rest still to come, the block index below the depth, the event base fixed |
| RefillTheorems.ShadowPeeks | lib/runtime/bstf_reader.h:123-134 | a shadow inside the file is readable up to its last record |
| RefillTheorems.WrongPathEventInRange | lib/runtime/bstf_reader.c:274-283 | every wrong-path event of the shadow at record k*stride is read from [k*D, (k+1)*D) |
| RefillTheorems.SpeculatesOnBranch | lib/runtime/refill.c:163-210 | what is speculated on is a correct-path record that has a shadow |
| RefillProofs.GatherKeeps | lib/runtime/refill.c:47-83 | gather keeps the lane invariant: delivered count plus correct prefix is the cursor's or the saved resume index |
| RefillProofs.TakeOneKeeps | lib/runtime/refill.c:286-308 | delivering one entry keeps the invariant and is a step the protocol allows |
| RefillProofs.EnterStagedKeeps | lib/runtime/refill.c:228-241 | entering on a staged branch keeps the invariant; the asserted orders of branches and resume points hold |
| RefillProofs.EnterConsumedKeeps | lib/runtime/refill.c:243-255 | the same for a branch consumed in this cycle |
| RefillProofs.LaneEnterKeeps | lib/runtime/refill.c:212-255 | a redirect into the shadow keeps the invariant in every case, stale and missing branches included |
| RefillProofs.LaneLeaveKeeps | lib/runtime/refill.c:258-275 | a flush keeps the invariant and resumes right after the correct prefix |
| RefillProofs.StepKeeps | lib/runtime/refill.c:86-318 | every window or consume call keeps the invariant |
| RefillProofs.RunKeeps | lib/runtime/refill.c:29-318 | the invariant holds after every input sequence |
| RefillLane.Lane.constructor | lib/runtime/refill.c:29-45 | a lane opens in the specified initial state, staging filled |
| RefillLane.Lane.Gather | lib/runtime/refill.c:47-83 | the array loop with compaction is the specified gather |
| RefillLane.Lane.Refresh | lib/runtime/refill.c:92-100 | the lane's part of the window call is the specified step |
| RefillLane.Lane.DoEnter | lib/runtime/refill.c:163-210 | the switch into a shadow with its two asserted orders is the specified one |
| RefillLane.Lane.LaneEnter | lib/runtime/refill.c:212-255 | the redirect with its branch search, truncation and fallbacks is the specified one, which enters the branch that `RefillRedirect.RedirectEnters` names |
| RefillLane.Lane.LaneLeave | lib/runtime/refill.c:258-275 | the flush is the specified one |
| RefillLane.Lane.Restore | lib/runtime/refill.c:270 | the third assertion: the restored cursor is the saved point and outside any shadow |
| RefillLane.Lane.Consume | lib/runtime/refill.c:277-318 | one lane's share of the consume call is the specified step |
| Refill.Refill.Window | lib/runtime/refill.c:86-136 | every active lane steps, the others are untouched, and the window words are faithful to all 64 stagings, whose bits `UopBits.WindowShowsRecords` reads off the trace |
| Refill.Refill.Consume | lib/runtime/refill.c:277-318 | every active lane takes the count its bits of the take words spell, and redirects by its bits |
| Refill.Refill.DoneMask | lib/runtime/refill.c:320-331 | bit l is set exactly for an inactive lane or one whose trace is exhausted |
| Window.EntryFields | lib/runtime/refill.c:18-27 | the fields of a packed entry are recovered bit by bit |
| Window.PackedIsFaithful | lib/runtime/refill.c:86-136 | transposing the packed lanes gives words whose bit l is the matching bit of lane l's entry, for duop, mem, valid and fe |
| Window.WindowWordBits | lib/runtime/refill.c:86-136 | a window slot past the end of staging reads as all zero |
| Window.UnpackSmall | lib/runtime/transpose.c:107-127 | byte l collects bit l of each word |
| Window.ByteIsLaneValue | lib/runtime/refill.c:277-290 | the unpacked byte is the number the lane's bits spell |
| Window.PackLanes | lib/runtime/transpose.c:78-85 | the packed words are the first rows of the transpose |
| Window.UnpackLanes | lib/runtime/transpose.c:87-95 | the lane values are the transpose of the zero-padded words |
| Window.PackUnpack | lib/runtime/transpose.c:78-95 | unpacking what was packed gives back the low bits of every lane |
| Transpose.RoundExchanges | lib/runtime/transpose.c:19-28 | each round exchanges one more index bit between row and column |
| Transpose.ButterflyIsTranspose | lib/runtime/transpose.c:62-70 | the six rounds give B[i] bit j = A[j] bit i |
| Transpose.TransposeInvolutive | lib/runtime/transpose.c:62-70 | the butterfly is its own inverse |
| Transpose.SwapTile | lib/runtime/transpose.c:19-28 | the xor and shift sequence swaps the off-diagonal blocks of one tile and nothing else |
| Transpose.RoundInPlace | lib/runtime/transpose.c:19-28 | the nested loops perform one round on the whole array |
| Transpose.Transpose64 | lib/runtime/transpose.c:62-70 | the array is transposed in place |
| CacheSpec.AccessLines | preprocess/cachesim/cachesim.cpp:221-253 | what an access does to every line: hit, fill, victim, dirty and prefetch marks, all other lines unchanged |
| CacheSpec.InvalidateLines | preprocess/cachesim/cachesim.cpp:258-271 | invalidation removes exactly that line and reports its dirty mark |
| CacheImpl.CacheObj.constructor | preprocess/cachesim/cachesim.cpp:186-203 | a cache starts empty in its geometry, whatever the number of ways; with at most 255 it is ready for its methods |
| CacheImpl.CacheObj.AccessLine | preprocess/cachesim/cachesim.cpp:221-253 | the move-to-front on flat vectors is the list-level access |
| CacheImpl.CacheObj.InvalidateLine | preprocess/cachesim/cachesim.cpp:258-271 | the in-place removal is the list-level invalidation |
| CacheImpl.CacheObj.ProbeLine | preprocess/cachesim/cachesim.cpp:205-221 | probing answers presence and changes nothing |
| CacheCounter.CounterIsExactIff | preprocess/cachesim/cachesim.cpp:186-271 | a set with its 8-bit count answers every access after every run of accesses and removals like the list of its lines if and only if it has at most 255 ways |
| StoreProofs.NoStoreIsLost | preprocess/cachesim/cachesim.cpp:609-697 | with L1D, after any run the topmost dirty copy of a line holds its last store, and memory does when no copy is dirty; memory is written only with stored lines |
| StoreProofs.AccessTracked | preprocess/cachesim/cachesim.cpp:651-697 | one access keeps the books on every line, while it waits for data, rests or is on its way down |
| StoreProofs.LoadsAreCurrent | preprocess/cachesim/cachesim.cpp:632-697 | where no write-back can bypass L3, the topmost copy of every line, or memory, holds its last store after any run |
| LoadWitness.LoadsCurrentIff | preprocess/cachesim/cachesim.cpp:632-697 | every load of every run finds the last store if and only if there is an L1D and L2 is on, or L3 is off, or L3 has one way and its sets divide those of L1D |
| LoadWitness.StaleLoad | preprocess/cachesim/cachesim.cpp:632-638 | in every other geometry with L1D there is a run after which a load reads an older store |
| LoadWitness.StoresKeptIffL1d | preprocess/cachesim/cachesim.cpp:651-697 | a configuration keeps the last store of every line in every run if and only if it has an L1D |
| HierarchyProofs.L2StaysInclusive | preprocess/cachesim/cachesim.cpp:611-638 | with an inclusive L2, after any run every L1 line is in L2, for any associativity and victim chain |
| HierarchyProofs.PrefetchesBalance | preprocess/cachesim/cachesim.cpp:611-678 | issued = useful + evicted unused + still flagged in L2, after any run |
| HierarchyProofs.BackInvalidateLines | preprocess/cachesim/cachesim.cpp:611-618 | back-invalidation takes the line out of both L1 caches, counts the copies, reports a dirty one, and touches nothing else |
| ServedLevel.ServedFrom | preprocess/cachesim/cachesim.cpp:651-697 | main theorem on the served level, for every well-formed state: 0 iff the first-level cache holds the line, else 1 iff L2 does, else 2 iff L3 does once the victim of L2 was written back, else 3; the prefetch mark iff L2 held the line flagged |
| ServedLevel.ThirdHolds | preprocess/cachesim/cachesim.cpp:611-625 | that L3 holds the line if and only if it did before and the write-back did not drive it out |
| ServedLevel.CountersAreLevels | preprocess/cachesim/cachesim.cpp:668-691 | after any run each counter of L2, L3 and memory is the number of accesses that got that far or were served there, and useful prefetches the number of flagged hits |
| ServedLevel.FirstCountersAreLevels | preprocess/cachesim/cachesim.cpp:659-666 | the same for the two first-level caches |
| ServedLevel.WriteBacksAreMoves | preprocess/cachesim/cachesim.cpp:604-638 | after any run the three write-back counters are the numbers of lines that moved out of L1D, out of L2 and into memory |
| ServedLevel.PrefetchIssued | preprocess/cachesim/cachesim.cpp:640-649 | a prefetch is redundant if and only if L1D or L2 holds the line, and then only counted; otherwise it is issued and L2 ends with the line, clean and flagged |
| Hierarchy.Sim.constructor | preprocess/cachesim/cachesim.cpp:573-578 | for every accepted configuration the simulator starts empty, ready for its methods when every enabled level has at most 255 ways |
| Hierarchy.Sim.AccessOne | preprocess/cachesim/cachesim.cpp:651-697 | the imperative access of one line is the specified one, with its access and hit counters, served level and prefetch hit, which `ServedLevel.ServedFrom` and `CountersAreLevels` read off the caches |
| Hierarchy.Sim.EvictL2 | preprocess/cachesim/cachesim.cpp:611-625 | eviction from L2 is the specified one |
| Hierarchy.Sim.InsertL2 | preprocess/cachesim/cachesim.cpp:632-638 | insertion of a write-back or prefetch is the specified one |
| Hierarchy.Sim.Prefetch | preprocess/cachesim/cachesim.cpp:640-649 | issuing a prefetch is the specified one, redundant ones included |
| StackTheorems.ScanCountsEveryCache | preprocess/cachesim/cachesim.cpp:350-410 | main theorem: for every stream and power-of-two sweep, hits[c] and accs[c] equal the demand hits and accesses of an independent LRU cache of geometry c |
| SweepAttached.SweepReportsL2 | preprocess/cachesim/cachesim.cpp:627-675 | a sweep attached to L2 that contains L2's geometry reports for it exactly the demand accesses and hits of the simulated L2, after any run |
| SweepL1.SweepReportsL1 | preprocess/cachesim/cachesim.cpp:655-665 | with L2 off or not inclusive, a sweep attached to L1I or L1D that contains its geometry reports exactly the accesses and hits of the simulated cache, after any run |
| SweepL1.SweepExactIff | preprocess/cachesim/cachesim.cpp:611-665 | it reports that cache's hits in every run if and only if L2 is off or not inclusive |
| StackTheorems.StepCounts | preprocess/cachesim/cachesim.cpp:372-409 | one access counts as a hit for a geometry exactly when its cache hits |
| StackTheorems.HitInExact | preprocess/cachesim/cachesim.cpp:389-403 | for a listed line the truncated, early-exit test is the true LRU test |
| StackTheorems.UnlistedMisses | preprocess/cachesim/cachesim.cpp:379-386 | a line dropped by truncation misses in every geometry |
| StackTheorems.TruncatedSum | preprocess/cachesim/cachesim.cpp:389-403 | the truncated distance never exceeds the true one and falls short only beyond the truncation length |
| StackTheorems.GroupIsSet | preprocess/cachesim/cachesim.cpp:392-400 | the fine sets of a residue class together are the coarse set |
| StackTheorems.LruHolds | preprocess/cachesim/cachesim.cpp:186-253 | the LRU cache holds the most recently used lines of each set, in order, after every stream |
| StackTheorems.ScanHolds | preprocess/cachesim/cachesim.cpp:350-410 | every fine list is the truncated recency list of its set, after every stream |
| StackImpl.StackSim.constructor | preprocess/cachesim/cachesim.cpp:358-368 | the engine starts with as many empty fine lists as the largest set count |
| StackImpl.StackSim.TestHit | preprocess/cachesim/cachesim.cpp:389-403 | the early-exit loop over the residue class computes the specified test |
| StackImpl.StackSim.Access | preprocess/cachesim/cachesim.cpp:372-409 | search, count, move to front and truncate is the specified step |
| PoolTheorems.ReturnedRunIsComplete | lib/runtime/pool.c:71-169 | whenever the caller is outside a run, for any interleaving and reuse, each batch of the last run was executed and finished exactly once, all deques are empty, all workers left the loop |
| PoolTheorems.NeverTwice | lib/runtime/pool.c:71-111 | at no time is a batch queued, running or finished more than once |
| PoolTheorems.NoDeadlock | lib/runtime/pool.c:71-169 | while a run is open some thread can move without a spurious wake-up |
| PoolTheorems.EveryStepDescends | lib/runtime/pool.c:71-169 | every real step strictly lowers a measure, so runs cannot go on without end |
| PoolOrder.StolenIffNotDealt | lib/runtime/pool.c:84-102 | in every reachable state a batch being executed counts as stolen if and only if it was dealt to another worker, batch i being dealt to worker i mod n |
| PoolOrder.TakesFromItsEnd | lib/runtime/pool.c:38-53 | a worker takes the newest batch of its own deque, a thief at its k-th try the oldest of the k-th worker after it, round the pool; if there is none it tries the next, and leaves after all; nothing else changes |
| PoolOrder.RunDealt | lib/runtime/pool.c:161 | every deque holds only batches dealt to its worker, in increasing order |
| PoolProofs.RunKeeps | lib/runtime/pool.c:71-169 | the pool invariant holds after every schedule |
| PoolProofs.TakeKeeps | lib/runtime/pool.c:86-102 | a pop or a steal keeps the invariant: the batch moves from a queue to its worker |
| Deque.Deque.Push | lib/runtime/pool.c:28-37 | push appends at the bottom, growing the buffer when full without losing anything |
| Deque.Deque.Pop | lib/runtime/pool.c:38-45 | pop takes the last value and fails exactly on an empty deque |
| Deque.Deque.Steal | lib/runtime/pool.c:46-53 | steal takes the first value and fails exactly on an empty deque |
| History.HistReg.Push | preprocess/frontend/predictors.hpp:32-45 | the multi-word shift is one push into the 512-bit history |
| History.HistIsRecent | preprocess/frontend/predictors.hpp:32-45 | the register holds the last 512 outcomes, newest first |
| History.UpdateIsFold | preprocess/frontend/predictors.hpp:51-67 | one incremental update equals refolding the pushed history |
| History.FoldedIsExact | preprocess/frontend/predictors.hpp:51-67 | after any outcomes f is the XOR of history bits i < olen at positions i mod tlen |
| History.Folded.Update | preprocess/frontend/predictors.hpp:51-67 | the field update keeps f the fold of the history |
| Ras.RefinesBoundedStack | preprocess/frontend/predictors.hpp:500-537 | push, pop and peek on the circular buffer are those of a stack that drops its oldest entry |
| Ras.RunsAgree | preprocess/frontend/predictors.hpp:500-537 | over any pushes, pops, saves and restores buffer and snapshots hold the bounded stacks |
| Ras.RasObj.PushCall | preprocess/frontend/predictors.hpp:515-523 | the field updates of push are the bounded push |
| Ras.RasObj.PopRet | preprocess/frontend/predictors.hpp:524-529 | the field updates of pop return and remove the latest entry |
| Ras.RasObj.Restore | preprocess/frontend/predictors.hpp:530-532 | restore puts back exactly the saved state |
| FrontendProofs.RunsDoNotInterfere | preprocess/frontend/frontend_sim.cpp:430-486 | with wrong-path training off, two simulators with equal TAGE and RAS settings agree on all learned state after every prefix, whatever their wrong-path depth, uBTB and BTB |
| FrontendDepth.DepthMattersIffReached | preprocess/frontend/frontend_sim.cpp:430-486 | with wrong-path training on, for all predictors that count their updates, all buffers and every trace, a run at any depth ends in the state (update count included) of a run at depth 0 if and only if no wrong-path block is a known block with an executed conditional branch |
| FrontendDepth.BlockTicks | preprocess/frontend/frontend_sim.cpp:430-486 | a block trains once for each of its executed conditional branches and once for each that the wrong path behind it reaches |
| FrontendWitness.IndependenceNeedsTrainingOff | preprocess/frontend/frontend_sim.cpp:698-753 | with the code's target buffer of any geometry and its bimodal counters of two or more bits, depth makes no difference to any counter on any trace of blocks that follow each other if and only if wrong-path training is off; without training it makes none to anything learned |
| FrontendWitness.SecondPass | preprocess/frontend/frontend_sim.cpp:461-475 | a jump that is not buffered yet sends the wrong path into the block behind it, whose branch counter then ends lower at every depth than at depth 0 |
| TargetBuffer.FoundAfterUpdate | preprocess/frontend/predictors.hpp:350-493 | whatever the buffer held, a block just written is found again with the old entry brought up to date |
| TargetBuffer.TargetRemembered | preprocess/frontend/predictors.hpp:362-380 | an update with an unknown target keeps the target the branch had, a known one replaces it |
| TargetBuffer.OtherNotFound | preprocess/frontend/predictors.hpp:458-493 | a buffer with one block in it finds no other: set and tag together are the address |
| TargetBuffer.OnlyOldestLost | preprocess/frontend/predictors.hpp:467-487 | writing a block leaves every other one findable as it was, unless the set was full and the other was the one of it used longest ago |
| TargetBuffer.FoundIsNewest | preprocess/frontend/predictors.hpp:458-466 | a block that is found gets the newest mark, and nothing else changes |
| TargetBuffer.WrittenIsNewest | preprocess/frontend/predictors.hpp:467-487 | a block that is written gets the newest mark in the place it had; a new one takes the first empty way, else the one with the oldest mark, the first on a tie |
| TargetBuffer.HintAfter | preprocess/frontend/predictors.hpp:362-388 | the two-bit hint of a slot after one execution, for new, taken, not taken, unconditional and unexecuted branches |
| FrontendProofs.SpeculationIsUndone | preprocess/frontend/frontend_sim.cpp:461-475 | save, wrong path and restore leave the learned state exactly as it was |
| FrontendProofs.BlockLearnsFromTraceOnly | preprocess/frontend/frontend_sim.cpp:430-486 | what a block teaches does not depend on what was predicted |
| FrontendProofs.RegistersStayFolded | preprocess/frontend/predictors.hpp:237-264 | after every block, with any settings, each folded register is the fold of the global history |
| FrontendHistory.HistoryIsOfTrace | preprocess/frontend/frontend_sim.cpp:662-675 | main theorem on the history: after any run, with any settings, bit i is the i-th newest outcome of the executed conditional branches of the trace, and behind them the old history |
| FrontendHistory.CallsAreOfTrace | preprocess/frontend/frontend_sim.cpp:650-692 | after any run, with any settings, the return stack is the bounded stack of the trace's calls, each pushing its pc plus its learned or default length, and the learned lengths are those of the trace |
| FrontendHistory.TablesAreOfTrace | preprocess/frontend/frontend_sim.cpp:662-675 | without wrong-path training or without a wrong path, the tables are trained on exactly the outcomes of the trace in order, each with the history before it |
| FrontendHistory.BlockMapIsOfTrace | preprocess/frontend/frontend_sim.cpp:540-552 | after any run, with any settings, the block map holds exactly the blocks of the trace, each with the taken branch of its last execution, the branch last seen in each slot and the fall-through last seen |
| FrontendHistory.BlockResolves | preprocess/frontend/frontend_sim.cpp:461-478 | a block is resolved from the state before it, but for what the wrong path taught the tables |
| FrontendFlow.PredictionIs | preprocess/frontend/frontend_sim.cpp:572-640 | main theorem on the prediction: each stage leaves by the first valid slot that is unconditional or predicted taken, to the top of the bounded stack for a return and the stored target otherwise, else goes on to the known fall-through or the next block; bubbles are 2, 1 or 0 by which stages differ |
| FrontendFlow.GoesOneWay | preprocess/frontend/frontend_sim.cpp:572-595 | that description leaves one flow |
| FrontendFlow.BlockIs | preprocess/frontend/frontend_sim.cpp:432-478 | main theorem on one block: its byte is about the prediction made before it and asks for a redirect exactly if direction or address were wrong; only then depth wrong-path blocks are walked from the predicted address; the buffers end with what the block did |
| FrontendFlow.WrongBlockIs | preprocess/frontend/frontend_sim.cpp:698-753 | a wrong-path block writes a marked byte judged by the block map, trains what the settings ask for on what the map knows, follows the predicted flow in history and return stack, and leads where it was predicted to |
| FrontendProofs.BlockBytes | preprocess/frontend/frontend_sim.cpp:437-475 | a block adds one .fe byte, and depth wrong-path bytes exactly when that byte has the redirect mark |
| FrontendProofs.OverlaySizes | preprocess/frontend/frontend_sim.cpp:437-475 | in separate mode .fe has one byte a block and .fe.wp depth bytes a redirect |
| Frontend.FrontendSim.RunTrace | preprocess/frontend/frontend_sim.cpp:430-486 | the block loop on fields is the specified run |
| Frontend.FrontendSim.Step | preprocess/frontend/frontend_sim.cpp:432-484 | one block on fields is the specified step |
| Frontend.FrontendSim.PredictAt | preprocess/frontend/frontend_sim.cpp:597-640 | the three-stage prediction with its lookups is the specified one, which `FrontendFlow.PredictionIs` describes |
| Frontend.FrontendSim.ResolveBlock | preprocess/frontend/frontend_sim.cpp:650-695 | resolution trains, pushes history and moves the return stack as specified, which is what `FrontendHistory` reads off the trace |
| Frontend.FrontendSim.WrongPathBlock | preprocess/frontend/frontend_sim.cpp:698-753 | one wrong-path block is the specified one, with the address it leads to, which `FrontendFlow.WrongBlockIs` describes |
| Frontend.FrontendSim.ExpandWrongPath | preprocess/frontend/frontend_sim.cpp:461-475 | the expansion between save and restore is the specified one |
| Overlay.Derive | lib/runtime/bstf_reader.c:138-186 | strict opening checks the data overlay's length and derives depth and stride with depth*n = overlay bytes and stride*n = shadow records; each failure means that no such number exists |
| Overlay.RedirectsEncoded | lib/runtime/bstf_reader.c:150-186 | the reader counts in the encoded bytes the redirects the simulator meant |
| Overlay.EncodedNumber | preprocess/frontend/frontend_sim.cpp:441-446 | the event byte is the bubbles plus 0x04, 0x08, 0x10, 0x20, 0x40 and 0x80 for its flags |
| Overlay.WriteShadows | preprocess/spike/bstf_gen.cc:433-591 | one shadow of stride records is appended for each marked block, in order, and the area is stride records a mark |
| Overlay.ReaderAgrees | lib/runtime/bstf_reader.c:150-186 | what the simulator writes in separate mode and the generator appends, the reader opens with exactly that depth, misprediction count and stride |
| Overlay.ShadowReadsItsEvents | lib/runtime/bstf_reader.c:274-283 | the shadow the generator placed for misprediction k reads the k-th piece of depth event bytes |
| Netlist.PmuxSelects | prototype/gen.py:136-143 | with at most select j set the prototype's pmux is choice j if set, else zero |
| Schedule.Plan | prototype/gen.py:68-94 | the worklist ends, each cell comes once and after the drivers of its inputs, and something is left if and only if there is a combinational cycle |
| Schedule.Sweep | prototype/gen.py:82-94 | a pass places at least one cell or proves every pending cell waits for another |
| Schedule.StuckMeansCycle | prototype/gen.py:93-94 | stuck cells and combinational cycles imply each other |
| Emit.LanesApart | prototype/gen.py:32-36 | any emitted program keeps the 64 lanes apart: lane l of the result is the program run on lane l |
| Emit.EmitCell | prototype/gen.py:96-145 | the per-cell emission loops append exactly the specified lines |
| Emit.EmitFf | prototype/gen.py:147-157 | the flip-flop loop appends exactly the specified updates |
| Emit.Generate | prototype/gen.py:20-163 | the text is loads, input pins, scheduled cells, updates, output pins, for a valid schedule that is complete if and only if there is no cycle |
| CellMeaning.OneSolution | prototype/gen.py:96-145 | at the widths and signs the text is right for, a cell's equation on the numbers its operands spell, signed or unsigned, has exactly one solution: what the text computes |
| CellMeaning.TextRightIff | prototype/gen.py:96-145 | for each cell type and all widths its rule can index, the text solves the cell's equation for all operands and earlier contents if and only if the widths and the sign are those of Netlist.Faithful |
| CellMeaning.TextDoes | prototype/gen.py:96-145 | the emitted lines compute their bits from the operands, leave output bits without a line as they were, and change nothing else |
| CellMeaning.CellSolves | prototype/gen.py:96-145 | running a cell's lines makes its equation true and changes only its outputs |
| CellMeaning.RunAdderBit | prototype/gen.py:124-135 | the adder block of one bit produces that bit of the sum and the next carry |
| CycleMeaning.RunOrder | prototype/gen.py:96-145 | after the ordered cells every cell equation holds at once |
| CycleMeaning.AtMostOneSolution | prototype/gen.py:82-94 | for given sources a schedulable netlist has at most one solution on all its nets |
| Netlist.FfTextRightIff | prototype/gen.py:147-157 | for all port levels, data and states the written update is the flip-flop's if and only if its polarities, reset value and port order are those of Netlist.FfFaithful |
| CycleMeaning.FfTextIs | prototype/gen.py:147-157 | the update expression of any flip-flop is reset to zero over enable over hold, both ports acting when high |
| CycleMeaning.FfRhsIs | prototype/gen.py:147-157 | for those flip-flops it is their next state |
| CycleMeaning.EveryLaneIsAnInstance | prototype/gen.py:20-163 | whatever the words held before, in each lane the nets solve the netlist for that lane's inputs and state, the new state is that lane's next state, and the output pins are their nets |
| NetlistRuns.LanesSimulate | prototype/gen.py:20-163 | over any number of cycles, inputs and leftovers, lane l of the generated code has the nets, outputs and states of the one instance that starts in its state and is fed its inputs |
| NetlistRuns.CycleIsStep | prototype/gen.py:20-163 | one right cycle and one instance step from the same state and inputs have the same nets, outputs and next state |
| Numbers.SumIsAdd | prototype/gen.py:124-135 | ripple carry with B zero-padded or cut adds modulo 2^w |
| Numbers.SumIsSub | prototype/gen.py:124-135 | ripple carry with B inverted and carry set subtracts modulo 2^w |
| Builder.Dag.Make | tools/bstm-cc/bstm_cc/ir.py:100-110 | a structure is stored once: an existing node is returned, a new one appended, old nodes keep their meaning |
| Builder.ValGrow | tools/bstm-cc/bstm_cc/ir.py:100-110 | appending nodes changes no value |
| Builder.Dag.VNot | tools/bstm-cc/bstm_cc/ir.py:113-117 | negation with double negations cancelled has the truth table of NOT |
| Builder.Dag.VAnd | tools/bstm-cc/bstm_cc/ir.py:119-137 | every simplification of AND keeps its truth table, and the graph stays reduced |
| Builder.Dag.VOr | tools/bstm-cc/bstm_cc/ir.py:139-153 | the same for OR |
| Builder.Dag.VXor | tools/bstm-cc/bstm_cc/ir.py:155-175 | the same for XOR |
| Builder.Dag.VMux | tools/bstm-cc/bstm_cc/ir.py:184-206 | the same for s ? b : a |
| Builder.Dag.VMaj | tools/bstm-cc/bstm_cc/ir.py:208-235 | the same for the carry gate |
| IrWords.ReduceTree | tools/bstm-cc/bstm_cc/ir.py:238-250 | the balanced tree computes the plain fold, for any number of inputs |
| IrWords.AddSub | tools/bstm-cc/bstm_cc/ir.py:270-282 | the built nodes compute the ripple sum of the extended operands |
| IrWords.SumOfIs | tools/bstm-cc/bstm_cc/ir.py:270-282 | that sum is addition or subtraction modulo 2^w of the signed or unsigned values, for all widths |
| IrWords.LessThan | tools/bstm-cc/bstm_cc/ir.py:284-292 | the sign of the wider difference is A < B, signed and unsigned |
| IrWords.Equal | tools/bstm-cc/bstm_cc/ir.py:294-299 | the node is set if and only if the two values are equal, signed and unsigned |
| IrWords.EqConst | tools/bstm-cc/bstm_cc/ir.py:301-309 | the node is set if and only if A spells k |
| Cells.Shift | tools/bstm-cc/bstm_cc/cells.py:292-317 | for all widths the barrel shifts A at the output width by the whole unsigned value of B, with zero or sign fill, over-shift included; a signed amount is refused |
| Cells.CutFirstIff | tools/bstm-cc/bstm_cc/cells.py:292-317 | cutting A to the output width before shifting equals shifting all of A and cutting, for every amount, if and only if the shift is left or every bit cut off is the fill |
| CellsSpec.LeftIsTimes | tools/bstm-cc/bstm_cc/cells.py:320-329 | left shift multiplies by 2^k modulo 2^w |
| CellsSpec.RightIsDivide | tools/bstm-cc/bstm_cc/cells.py:324-325 | logical right shift divides by 2^k |
| CellsSpec.RightIsDivideSigned | tools/bstm-cc/bstm_cc/cells.py:332-333 | arithmetic right shift divides the signed value by 2^k, rounding down |
| Cells.UsefulCovers | tools/bstm-cc/bstm_cc/cells.py:301-306 | stage amounts fit the width and together reach it, for every width |
| CellsSelect.BmuxBits | tools/bstm-cc/bstm_cc/cells.py:230-239 | the piece of A whose index is the binary value of S |
| CellsSelect.Bmux | tools/bstm-cc/bstm_cc/cells.py:242-251 | the same, refusing exactly an A narrower than 2^n pieces |
| CellsSelect.CMux | tools/bstm-cc/bstm_cc/cells.py:210-226 | one select bit picks A or B; several index the pieces of A and B; refused exactly when too narrow |
| CellsSelect.Pmux | tools/bstm-cc/bstm_cc/cells.py:268-287 | the piece of B at the highest set select, A when none is set; refused exactly when B is too narrow |
| CellsSelect.Demux | tools/bstm-cc/bstm_cc/cells.py:254-265 | A in the piece S names, zero in every other |
| CellsSelect.DemuxThenBmux | tools/bstm-cc/bstm_cc/cells.py:230-265 | reading back the piece that was written gives A |
| PmuxAgree.AgreeIffOneHot | prototype/gen.py:136-143 | the two lowerings of pmux agree for every A and B if and only if exactly one select is set |
| Batch.Plan | lib/runtime/batch.c:22-69 | the batches hold every instance once, sorted, each of one simpoint with at most 64 lanes and matching mask and trace, in exactly the sum of ceil(count/64) batches; the array grows if and only if that number reaches its first capacity, and then doubles until it fits |
| Batch.FillOne | lib/runtime/batch.c:43-57 | one batch takes lanes until 64, the end, or another simpoint; its mask is the low n_lanes bits |
| Batch.Grow | lib/runtime/batch.c:59-64 | doubling keeps every batch |
| Batch.NoSmallerPacking | lib/runtime/batch.c:22-69 | no packing with one simpoint and 64 lanes a batch uses fewer batches |
| Batch.DistinctGrowFromNine | lib/runtime/batch.c:59-64 | one instance for each of simpoints 0 to n-1 makes the array grow if and only if n is nine or more |

## Left out

- File mapping, JSON, text trace parsing, CSV and statistics output, hashing and `main` functions: plumbing.
- AVX2 and BMI2 paths: the scalar loops they stand for are modelled.
- The lax opening mode of the trace reader: only strict opening derives overlay geometry.
- Trace bytes: a record is its decoded fields at a byte offset, so field packing of the 16-byte record is not modelled.
- Counters are unbounded: 64-bit wrap-around of statistics, indices and the pool's generation number is not modelled.
- Diagnostics of the refill window (its histograms and per-refill totals), which nothing reads back.
- RefillTheorems.StarvedMeansWholeShadow: assumes every branch's shadow lies inside the file, as the trace checker demands.
- RefillTheorems.WrongPathEventInRange: for shadows placed at a multiple of the stride, where the generator places them (`Overlay.ShadowOffset`).
- Overlay.WriteShadows: which instructions a shadow holds and the 4 GiB limit of its offsets are not modelled.
- HierarchyProofs.PrefetchesBalance: only with L2 enabled; without it a prefetch is issued and nothing records its fate.
- CacheImpl.CacheObj.AccessLine: at most 255 ways; beyond that the 8-bit count wraps (`CacheCounter.CounterIsExactIff`).
- StoreProofs.NoStoreIsLost: data are counted stores to a whole line, since the simulator has no data; instruction caches are never written and their copies are not followed.
- Address translation, the stride prefetcher's training and the overlay byte encoding of the cache simulator: runs contain prefetches of arbitrary lines at arbitrary points instead.
- The set index is a remainder in the model; that masking with a power of two less one is that remainder is `Arith.MaskIsMod`.
- Threads: mutex and condition operations are atomic steps with spurious wake-ups; the job function is assumed to return; creation and shutdown only by the flag.
- TAGE's tagged components, their indexing and replacement, and the uBTB: arbitrary functions of the state they may read, so the theorems hold for all of them; the BTB and the bimodal table are also modelled (`TargetBuffer`).
- FrontendWitness.IndependenceNeedsTrainingOff: not for one-bit counters, which only repeat the last outcome of their branch unless branches share them.
- Frontend.FrontendSim.PredictAt: predictor and buffer lookups are parameters of the simulator object, any functions of their own state.
- Frontend.FrontendSim.ResolveBlock: the same for training and buffer updates.
- Frontend.FrontendSim.WrongPathBlock: the same for both.
- History.FoldedIsExact: history length below 512 and folded width below 32, the range the constructor's clamps and settings give.
- Prediction accuracy, IPC and latency numbers: measurements.
- Emit.Generate: the sorted list of flip-flop bits and the fixed names of the ports are parameters; declarations are not modelled.
- CycleMeaning.FfRhsIs: one clock; the set and clear inputs of `$dffsr` cells, which the generator takes for plain flip-flops, are not modelled.
- CycleMeaning.EveryLaneIsAnInstance: netlists whose cells and flip-flops the text is right for (`CellMeaning.TextRightIff`, `Netlist.FfTextRightIff`); a `$ne` or unknown cell is ordered but emits nothing.
- Netlist.PmuxSelects: says nothing of two selects set, where the prototype ORs the choices.
- Flip-flop and memory lowering, levelisation and C output of the compiler (`compiler.py`, `backend.py`): not part of this model.
- Bitwise, reduction and comparison cell wrappers of `cells.py`: each is one call of a builder helper that is modelled, padded to the output width.
- Batch.Plan: allocation failure and the copy of each instance's configuration words are not modelled; the library sort is a method proved to sort.
