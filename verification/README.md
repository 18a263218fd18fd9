# SUSTemu in Dafny

SUSTemu is a simulator of the RV64IM instruction set (sections 2.3 to 2.6 of the RISC-V Unprivileged ISA, 20191213, and its
M extension).  It runs the same program on engines that must agree: a functional machine that executes one instruction at a
time, a five-stage in-order pipeline and a Tomasulo out-of-order engine, over two levels of write-back caches that two cores
share.  This project models those engines and proves that they do agree, together with the smaller concurrent and arithmetic
code that ships with them.

`dafny verify dfyconfig.toml` checks everything.

## How the project is laid out

- `Isa.dfy` is the reference: one instruction of the functional machine, with the executor of an instruction as a function
  value, so that the theorems hold for every choice of arithmetic, branch conditions and jump targets.  `Trace` is an execution.
  `IsaMeaning.dfy` says what its loads, stores and executor compute, by bytes and two's complement numbers.
- `Tomasulo.dfy` is the out-of-order engine as functions on values: an instruction in flight is named by its tag, the number
  of committed instructions plus its position in the reorder buffer.  `TomasuloInvariant.dfy` has the invariant;
  `TomasuloCommit`, `TomasuloExecute`, `TomasuloRecover`, `TomasuloUnits` and `TomasuloFront` prove that every stage keeps it;
  `TomasuloStructure.dfy` is the part that holds of every program, valid or not; `TomasuloTheorem.dfy` is about whole runs,
  `TomasuloStores.dfy` about the order of stores, `TomasuloHistory.dfy` about recovery seen over a run, `TomasuloProgress.dfy`
  about commits that must come, and `TomasuloExact.dfy` says that stages do no less than they should.
  `Forwarding.dfy` is store-to-load forwarding.
- `OooRings.dfy`, `OooStages.dfy` and `OooEngine.dfy` are the engine as the source keeps it: rings with head, tail and count,
  valid bits, stations and latches that name reorder-buffer slots, and bit masks kept up to date bit by bit.  Slot = tag modulo
  32.  Each stage method is proved to do what the stage function does, so the theorems hold of the ring machine.
- `InOrder.dfy`, `InOrderProof.dfy`, `InOrderTiming.dfy` and `InOrderMachine.dfy` are the in-order pipeline: functions, proofs,
  the exact number of stalls, and the object with four slots and rotating pointers.
- `CacheLevel.dfy` is one cache, `CacheHierarchy.dfy` two levels over memory, `CacheAccess.dfy` a read or write,
  `CacheCoherence.dfy` two cores, `CachePrefetch.dfy` prefetching, `CacheLru.dfy` the replacement policy,
  `CacheTraffic.dfy` the accesses of the second level and the counters, and `CacheMachine.dfy` the objects with their loops.
- `Tso.dfy`, `Peterson.dfy` and `Litmus.dfy` are the two lab programs over per-core store buffers; `PetersonProgress.dfy` and
  `LitmusProgress.dfy` show that they get to their ends.
- `Division.dfy` (with `Bits.dfy` and `Arith.dfy`), `Expr.dfy` and `PageTable.dfy` are 64-bit division, the monitor's expression
  evaluator and the page tables of the 32-bit x86 port.

Memory in the engines is flat and byte addressed; that the caches behave so is what the cache theorems say.  What the source
takes from elsewhere (predictions, cache and divider latencies, the drain tick of the store buffer, the pages an allocator hands
out) is an input of each step, so every statement about runs is about all of them.

## Main results

- Out of order: in every run, for any predictions and any timing, the committed registers and pc, and memory with the store
  buffer on top, are those of the functional machine after as many instructions (`TomasuloTheorem.Refinement`,
  `OooEngine.Engine.Simulate`).  The program must stay in DRAM and meet no invalid instruction as far as it is followed, and at
  each completed load the newest older undrained store that touches it must cover it.  What the program does later, an ebreak or
  a device access for instance, does not matter.  The condition on loads is exact: `Forwarding.ForwardExact`.
  `TomasuloStores.SuitableRefines` needs a condition on the program only: every load is disjoint from or covered by every
  earlier store.  `TomasuloStores.StoreOrder` says which stores are in memory and which in the buffer.
- Progress: 22 cycles in which nothing outside makes the engine wait commit at least one instruction, whatever is predicted
  (`TomasuloProgress.CommitsWithin`), so every run can be continued as far as the program is valid (`TomasuloProgress.Completes`).
- Recovery: whatever was renamed, executed, retired or discarded since, recovering from an instruction that is still in flight
  gives back the register map of the moment it was renamed (`TomasuloHistory.RecoveryRestores`, `MispredictionRestores`),
  and what is discarded is off the path (`TomasuloExact.RecoversExactly`).
- In order: the same for any program, any predictor and any latency, without conditions (`InOrderProof.Refinement`), no
  wrong-path instruction executes (`InOrderProof.ExOnPath`), and every cycle is accounted for (`InOrderProof.CycleAccounting`).
  The stalls are the hazards of the functional execution, no more and no fewer, so the number of cycles has a closed form
  (`InOrderTiming.StallsExact`, `InOrderTiming.CycleCount`).
- Caches: two cores cannot tell them from flat memory (`CacheCoherence.Coherence`); one core cannot either, under any prefetch
  policy, exactly if there are more than two ways (`CachePrefetch.Indistinguishable`, `CachePrefetch.PrefetchSafeIff`); after any
  reads and writes an access hits exactly if fewer than `w` other blocks of its set were used since (`CacheLru.StackDistance`),
  in the second level too (`CacheTraffic.LowStackDistance`), and the counters are what that makes them (`CacheTraffic.HitsExact`).
- Of the three fences of Peterson's lock the one after the store to `turn` decides: mutual exclusion and a right count hold exactly
  if it is there, with or without the others (`Peterson.FencesNeeded`, `Peterson.CountNeedsFence`), and then every run can be
  continued to its end (`PetersonProgress.Completes`).  The litmus program counts a violation in some interleaving exactly if its
  fence is missing (`Litmus.FenceNeeded`), and with it runs complete (`LitmusProgress.Completes`).
- Address spaces: protect, any maps and unmaps, then unprotect frees exactly the pages that were handed out for the space and
  leaves all page tables as they were (`PageTable.LifeOfSpace`); in between the processor, which splits an address into its
  digits, goes exactly where the latest call for the page sent it (`PageTable.LatestMapping`).
- Expressions: every token list that a grammar with one level for each class of C operators derives evaluates to the value of the
  derivation (`Expr.DerivedEvaluates`).

## Where the code and its comments differ

- `src/cpu/pipeline.c` says that a control flush discards two instructions; its code discards one, the one in ID, and the
  accounting law has one cycle for each flush.
- `src/cpu/ooo.c` says that an older FENCE holds a load back; the test looks at a field that decode leaves unset and execution
  sets, so only an executed fence does.  The model does what the code does.
- `src/cpu/ooo.c` says that a serializing instruction enters the reorder buffer alone (lines 18-19 and 949).  The code makes it
  wait for an empty buffer, but lets the next instruction of its group follow at once (lines 944-956), so what holds is that it is
  the head (`TomasuloTheorem.SerializingIsHead`).

## Model

| member | source | states |
|---|---|---|
| Isa.HistoryIsTrace | src/cpu/exec.c:42-63 | the functional run, instruction by instruction, computes each outcome from the state the one before it left |
| Isa.StepRegs | src/cpu/ir.c:392-397 | an instruction changes its destination register only |
| IsaMeaning.LoadByte | src/cpu/ir.c:411-423 | byte k of what a load reads is the byte at address a + k |
| IsaMeaning.StoreBytes | src/cpu/ir.c:436-437 | a store puts byte k of the value at a + k and touches nothing else |
| IsaMeaning.SignExtends | src/cpu/ir.c:419-427 | sign extension gives the two's complement number in the low bytes |
| IsaMeaning.ZeroExtends | src/cpu/ir.c:428-435 | zero extension gives the unsigned number in the low bytes |
| IsaMeaning.LoadUnsigned | src/cpu/ir.c:428-435 | lbu, lhu, lwu and ld return the unsigned number in the bytes read |
| IsaMeaning.LoadSigned | src/cpu/ir.c:419-427 | lb, lh and lw return the two's complement number in the bytes read |
| IsaMeaning.ExecuteMeans | src/cpu/ir.c:382-388 | addresses, branch targets and links are sums modulo 2 to the 64th, and everything else goes on with the next instruction |
| Forwarding.CoversMeans | src/cpu/ooo.c:794-801 | a store covers a load if and only if it writes every byte of it, and overlaps it if and only if it writes one |
| Forwarding.ForwardCorrect | src/cpu/ooo.c:775-847 | if the newest store that touches the load covers it, overlaying the stores oldest to newest gives what a load after performing them all reads, sign or zero extended |
| Forwarding.ForwardExact | src/cpu/ooo.c:789-847 | that condition is exact: forwarding is right for all contents of memory and stores if and only if it holds |
| Tomasulo.Oldest | src/cpu/ooo.c:884-918 | the issue scan returns an issuable station no younger than any other issuable one, or -1 if there is none |
| Tomasulo.FreeStation | src/cpu/ooo.c:1018-1022 | the station taken is the lowest free one |
| TomasuloInvariant.Distinct | src/cpu/ooo.c:996-1017 | in-flight destinations differ from each other and from every committed register |
| TomasuloInvariant.FreeIsFree | src/cpu/ooo.c:212-225 | a register on the free list is neither committed nor in flight |
| TomasuloInvariant.ValueThroughMap | src/cpu/ooo.c:982-994 | a ready register reached through the map at entry j holds what the functional machine has in that register when it comes to that instruction |
| TomasuloCommit.DrainKeeps | src/cpu/ooo.c:1254-1269 | draining keeps the invariant: memory with the buffer on top does not change |
| TomasuloCommit.HeadOnPath | src/cpu/ooo.c:402-420 | the head of the reorder buffer is the functional machine's next instruction |
| TomasuloCommit.CommitKeeps | src/cpu/ooo.c:402-478 | commit retires the functional machine's next instruction or nothing |
| TomasuloExecute.Delivered | src/cpu/ooo.c:245-266 | an operand that arrives on the result bus is the functional machine's operand |
| TomasuloExecute.RanPrf | src/cpu/ooo.c:550-558 | a result changes its own physical register and no committed or other in-flight one |
| TomasuloRecover.RollbackExact | src/cpu/ooo.c:284-302 | undoing down to k entries leaves exactly those entries and the committed map with their destinations on top |
| TomasuloRecover.UndoRenamed | src/cpu/ooo.c:284-302 | undoing keeps the renaming consistent and registers conserved, and touches no committed value |
| TomasuloUnits.IntKeeps | src/cpu/ooo.c:532-590 | an INT slot keeps the invariant, for any prediction, recovery included |
| TomasuloUnits.MulKeeps | src/cpu/ooo.c:599-644 | the MUL slot keeps the invariant, for any latency |
| TomasuloUnits.MemoryAt | src/cpu/ooo.c:823-847 | memory with the buffer and the older finished stores on top is what the functional machine reads at that instruction |
| TomasuloUnits.LoadRight | src/cpu/ooo.c:757-847 | a load on the path returns the functional machine's result |
| TomasuloUnits.LsuKeeps | src/cpu/ooo.c:659-869 | an LSU slot keeps the invariant, for any timing of misses |
| TomasuloFront.IssueKeeps | src/cpu/ooo.c:878-921 | issue keeps the invariant, loads behind unready stores held back |
| TomasuloFront.SourceRight | src/cpu/ooo.c:1041-1073 | a source that is ready at rename is the functional machine's operand; x0 gives 0 |
| TomasuloFront.RenameKeeps | src/cpu/ooo.c:930-1089 | rename keeps the invariant |
| TomasuloFront.DecodeKeeps | src/cpu/ooo.c:1098-1109 | moving the fetch group on keeps the invariant |
| TomasuloFront.FetchKeeps | src/cpu/ooo.c:1113-1162 | fetching keeps the invariant, for any predictions |
| TomasuloStructure.CommitOrderly | src/cpu/ooo.c:460-475 | commit keeps renaming, conservation and waiting consistent, for any program |
| TomasuloStructure.IntOrderly | src/cpu/ooo.c:532-590 | so does an INT slot, recovery included |
| TomasuloStructure.LsuOrderly | src/cpu/ooo.c:659-869 | so does an LSU slot |
| TomasuloStructure.RenameOrderly | src/cpu/ooo.c:930-1089 | so does rename |
| TomasuloStructure.FreeCount | src/cpu/ooo.c:958-966 | the free list has 32 registers less the in-flight destinations, so it is not empty while the reorder buffer has room |
| TomasuloStructure.FreeListNeverStalls | src/cpu/ooo.c:958-966 | the free-list test of rename never fails |
| TomasuloStructure.ProducerIsOlder | src/cpu/ooo.c:989-1017 | a register that is not ready, reached through the map at entry j, is the destination of an older unfinished entry |
| TomasuloStructure.WaitsForOlder | src/cpu/ooo.c:245-266 | every operand a station lacks is the destination of an older unfinished entry |
| TomasuloStructure.HeadHasOperands | src/cpu/ooo.c:245-266 | the head of the reorder buffer never waits for an operand |
| TomasuloStructure.FlushExact | src/cpu/ooo.c:275-345 | recovery leaves the committed map with the destinations up to the branch on top, keeps exactly the entries up to it, and leaves no station or writing latch of a discarded entry |
| TomasuloStructure.SerializingSurvives | src/cpu/ooo.c:284-302 | no recovery removes a serializing instruction |
| TomasuloTheorem.AlwaysOrderly | src/cpu/ooo.c:1271-1287 | the structural invariant holds at every cycle of every run of every program |
| TomasuloTheorem.RegistersConserved | src/cpu/ooo.c:349-374 | at every cycle of every run committed map, in-flight destinations and free list partition the 64 registers, each entry's old register is the previous mapping, and p0 is never free |
| TomasuloTheorem.OperandsComing | src/cpu/ooo.c:884-918 | wakeup soundness at every cycle of every run |
| TomasuloTheorem.SerializingIsHead | src/cpu/ooo.c:950-956 | in every run a serializing instruction in the reorder buffer is its head and cannot be flushed |
| TomasuloTheorem.CycleKeeps | src/cpu/ooo.c:1271-1287 | one cycle keeps the refinement invariant, while the program is valid |
| TomasuloTheorem.CycleQueue | src/cpu/ooo.c:1271-1287 | after commit nothing in a cycle touches the instruction count, the store buffer or memory |
| TomasuloTheorem.Refinement | src/cpu/ooo.c:1271-1287 | after any run the committed registers, pc and memory with the buffer on top are the functional machine's after `insts` instructions, if it is valid for its first n instructions and no more have committed |
| TomasuloTheorem.NeverPanics | src/cpu/ooo.c:433-437 | while the program is valid a finished head is never marked faulty, so the panic is not reached |
| TomasuloTheorem.FenceVisible | src/cpu/ooo.c:430-431 | a fence that may commit finds every earlier store in memory |
| TomasuloStores.DrainQueued | src/cpu/ooo.c:1254-1269 | draining moves the boundary between memory and the buffer past exactly one store |
| TomasuloStores.PendingIs | src/cpu/ooo.c:823-847 | the stores a load on the path looks at are the execution's earlier undrained stores, in program order |
| TomasuloStores.StoreOrder | src/cpu/ooo.c:439-459 | in every run memory has the stores of the first d instructions and the buffer exactly those of the other committed ones, in order |
| TomasuloStores.SuitableRefines | src/cpu/ooo.c:1271-1287 | refinement with a condition on the program's first n instructions alone: every load is disjoint from or covered by every earlier store |
| TomasuloHistory.DidMap | src/cpu/ooo.c:1271-1287 | no stage changes the map that belongs to an instruction which stays in the reorder buffer |
| TomasuloHistory.RecoveryRestores | src/cpu/ooo.c:275-302 | on every run, recovering from an instruction that has stayed in flight gives the map held when it was the youngest, just renamed |
| TomasuloHistory.MispredictionRestores | src/cpu/ooo.c:567-588 | on every run, a misprediction found by an INT slot leaves that map and the branch as the youngest instruction |
| TomasuloProgress.AlwaysAttended | src/cpu/ooo.c:1271-1287 | at every cycle of every run every unfinished instruction is in a station or a latch |
| TomasuloProgress.HeadIssues | src/cpu/ooo.c:878-921 | a head that waits in a station goes into a free unit of its kind |
| TomasuloProgress.CycleProgress | src/cpu/ooo.c:1271-1287 | a cycle in which nothing outside makes the engine wait commits an instruction or gets nearer to it |
| TomasuloProgress.CommitsWithin | src/cpu/ooo.c:1271-1287 | in any run of a valid program 22 such cycles commit at least one instruction, whatever is predicted |
| TomasuloProgress.Completes | src/cpu/ooo.c:1271-1287 | every run can be continued until all valid instructions have committed |
| TomasuloExact.RecoversExactly | src/cpu/ooo.c:560-588 | an INT slot keeps everything in flight if the next instruction is the functional machine's, and discards everything behind it if not |
| TomasuloExact.IssuesExactly | src/cpu/ooo.c:878-921 | a free unit takes the oldest instruction that has its operands and, for a load, is not held up by an unready older store or an executed fence with stores to drain |
| TomasuloExact.FetchesTwo | src/cpu/ooo.c:1113-1162 | fetch takes two instructions unless the first is predicted to leave the group |
| TomasuloExact.CommitsTwo | src/cpu/ooo.c:402-478 | two finished instructions commit in one cycle |
| TomasuloExact.StoreLeaves | src/cpu/ooo.c:439-459 | a committing store goes to the end of the buffer, or at once to memory outside DRAM |
| TomasuloExact.RunsWhere | src/cpu/ooo.c:1028-1038 | multiplications and divisions run in the MUL unit, loads and stores in the LSU, all others in the INT units |
| TomasuloExact.FaultsWhen | src/cpu/ooo.c:755-774 | a load is marked faulty exactly if its address is neither in DRAM nor a device's |
| TomasuloExact.FillsOutstanding | src/cpu/ooo.c:314-338 | recovery drops younger latches but keeps one whose fill is outstanding, for the fill alone |
| OooRings.MaskUpdated | src/cpu/ooo.c:50-62 | updating one bit keeps every station mask equal to its definition |
| OooRings.RobPopBack | src/cpu/ooo.c:285-287 | stepping the tail back finds the youngest entry, in a full and wrapped ring too |
| OooRings.TagSlot | src/cpu/ooo.c:233-238 | the ring distance of a slot from the head is the age of the instruction in it |
| OooStages.DidOrderly | src/cpu/ooo.c:1271-1287 | every stage keeps the structural invariant |
| OooEngine.Engine.constructor | src/cpu/ooo.c:349-398 | the machine starts in the state the functions start in |
| OooEngine.Engine.FreePop | src/cpu/ooo.c:212-218 | returns the oldest free register |
| OooEngine.Engine.FreePush | src/cpu/ooo.c:220-225 | appends a register to the free list |
| OooEngine.Engine.NewerThan | src/cpu/ooo.c:233-238 | compares ages through ring distances |
| OooEngine.Engine.Wakeup | src/cpu/ooo.c:245-266 | gives the value to every waiting station and keeps the masks right |
| OooEngine.Engine.UndoAfter | src/cpu/ooo.c:275-302 | the rollback loop leaves exactly the undone engine, for any ring state |
| OooEngine.Engine.FlushStations | src/cpu/ooo.c:304-312 | drops the stations of younger instructions and keeps the masks right |
| OooEngine.Engine.FlushUnits | src/cpu/ooo.c:314-338 | drops the latches of younger instructions, keeping outstanding fills |
| OooEngine.Engine.Recover | src/cpu/ooo.c:275-345 | recovery on the rings is recovery on values |
| OooEngine.Engine.Commit | src/cpu/ooo.c:402-478 | commit on the rings is commit on values |
| OooEngine.Engine.IntUnit | src/cpu/ooo.c:532-590 | an INT slot on the rings is the INT slot on values |
| OooEngine.Engine.MulUnit | src/cpu/ooo.c:599-644 | the MUL slot on the rings is the MUL slot on values |
| OooEngine.Engine.ForwardBuffered | src/cpu/ooo.c:823-835 | the scan of the store buffer computes the forwarded value |
| OooEngine.Engine.ForwardInFlight | src/cpu/ooo.c:836-847 | the scan of the reorder buffer computes the forwarded value |
| OooEngine.Engine.LsuUnit | src/cpu/ooo.c:659-869 | an LSU slot on the rings is the LSU slot on values |
| OooEngine.Engine.HeldBack | src/cpu/ooo.c:890-906 | the scan of older entries decides whether a load must wait |
| OooEngine.Engine.Select | src/cpu/ooo.c:884-918 | the scan of the ready mask finds the oldest instruction that may issue |
| OooEngine.Engine.Issue | src/cpu/ooo.c:513-525 | issue on the rings is issue on values, masks right |
| OooEngine.Engine.Rename | src/cpu/ooo.c:930-1089 | rename on the rings is rename on values, masks right |
| OooEngine.Engine.DecodeGroup | src/cpu/ooo.c:1098-1109 | decode on the object is decode on values |
| OooEngine.Engine.FetchGroup | src/cpu/ooo.c:1113-1162 | fetch on the object is fetch on values |
| OooEngine.Engine.DrainStore | src/cpu/ooo.c:1254-1269 | draining on the ring is draining on values |
| OooEngine.Engine.Tick | src/cpu/ooo.c:1271-1287 | one cycle of the machine is one cycle of the functions, and every tie and mask definition holds again |
| OooEngine.Engine.Simulate | src/cpu/ooo.c:1271-1287 | after any number of cycles of the ring machine the committed state is the functional machine's, as far as the program is valid |
| InOrderProof.WbKeeps | src/cpu/pipeline.c:239-256 | WB retires the functional machine's next instruction |
| InOrderProof.MemKeeps | src/cpu/pipeline.c:260-279 | MEM's access is the functional machine's |
| InOrderProof.ExKeeps | src/cpu/pipeline.c:283-312 | after EX, what is left in ID is on the correct path |
| InOrderProof.BypassRight | src/cpu/pipeline.c:364-375 | without a load-use hazard the forwarded operand is the functional machine's |
| InOrderProof.IdKeeps | src/cpu/pipeline.c:314-381 | ID reads the functional machine's operands or stalls |
| InOrderProof.CycleKeeps | src/cpu/pipeline.c:173-235 | one cycle keeps the invariant, for any predictor and latency |
| InOrderProof.Refinement | src/cpu/pipeline.c:173-235 | after any run registers and pc are the functional machine's after `insts` instructions, and memory is, counting the instruction in WB |
| InOrderProof.ExOnPath | src/cpu/pipeline.c:283-312 | what is in EX is the functional machine's instruction there, with its operands |
| InOrderProof.CycleAccounting | src/cpu/pipeline.c:173-235 | without a predictor cycles = insts + load-use stalls + flushes + miss cycles served + occupied latches, at every cycle |
| InOrderTiming.PathKept | src/cpu/pipeline.c:283-312 | EX empties ID exactly if what is there is off the path, with or without a predictor |
| InOrderTiming.FetchFollows | src/cpu/pipeline.c:385-417 | fetch takes the instruction at the fetch pc and follows the prediction |
| InOrderTiming.StallsExact | src/cpu/pipeline.c:352-359 | at every cycle of every run the load-use count is the number of executed instructions that load what the next one reads, and the miss and flush counts are those of the functional execution |
| InOrderTiming.EveryRunHas | src/cpu/pipeline.c:260-279 | every run has a latency for each instruction, since each is in MEM once |
| InOrderTiming.CycleCount | src/cpu/pipeline.c:173-235 | the number of cycles in closed form, from the functional execution and the latencies of its loads |
| InOrderMachine.Pipeline.constructor | src/cpu/pipeline.c:57-77 | the machine starts empty, fetching at the pc |
| InOrderMachine.Pipeline.Writeback | src/cpu/pipeline.c:239-256 | the WB stage in place is the WB stage on values |
| InOrderMachine.Pipeline.Memory | src/cpu/pipeline.c:260-279 | the MEM stage in place is the MEM stage on values |
| InOrderMachine.Pipeline.Run | src/cpu/pipeline.c:283-312 | the EX stage in place is the EX stage on values |
| InOrderMachine.Pipeline.ReadOperands | src/cpu/pipeline.c:314-381 | the ID stage in place is the ID stage on values |
| InOrderMachine.Pipeline.FetchNext | src/cpu/pipeline.c:385-417 | the IF stage in place is the IF stage on values |
| InOrderMachine.Pipeline.Advance | src/cpu/pipeline.c:210-229 | rotating the pointers moves the instructions on |
| InOrderMachine.Pipeline.Tick | src/cpu/pipeline.c:173-235 | one cycle of the machine is one cycle of the functions |
| InOrderMachine.Pipeline.Simulate | src/cpu/pipeline.c:173-235 | any number of cycles refines the functional machine, obeys the accounting law and counts exactly its load-use pairs and redirections |
| CacheLevel.Lru | src/memory/cache.c:63-88 | the victim is the least recently used way, the lowest on a tie |
| CacheLevel.ShortcutAgrees | src/memory/cache.c:66-73 | the most-recently-used shortcut finds what the full scan finds |
| CacheLevel.FindKeeps | src/memory/cache.c:58-93 | a lookup reports a hit exactly if the block is held, returns its line, and changes no copy |
| CacheLevel.PutInstalls | src/memory/cache.c:149-153 | filling a victim adds that block, drops the one displaced and leaves every other copy |
| CacheLevel.PutDrops | src/memory/cache.c:322-324 | invalidating a line drops that copy only |
| CacheHierarchy.WriteL2Effect | src/memory/cache.c:96-132 | a write-back changes what is below for its block only, whatever it evicts |
| CacheHierarchy.ReadL2Effect | src/memory/cache.c:96-132 | a second-level read returns what is below and changes none of it |
| CacheHierarchy.FetchEffect | src/memory/cache.c:134-154 | a fill brings in what the core sees and changes nothing it sees |
| CacheAccess.Locate | src/memory/cache.c:200-212 | an access keeps clean lines equal to the level below and the geometry of the cache |
| CacheAccess.AssembleIsLoad | src/memory/cache.c:207-211 | copying bytes out of a line is loading from flat memory |
| CacheAccess.PatchIsStore | src/memory/cache.c:277-280 | copying bytes into a line is storing into flat memory |
| CacheCoherence.SnoopKeeps | src/memory/cache.c:306-352 | a snoop keeps coherence and changes nothing anyone sees |
| CacheCoherence.ReadBy | src/memory/vmem.c:15-27 | a read keeps coherence: a dirty line excludes a copy in the other first level, clean lines equal the level below |
| CacheCoherence.WriteBy | src/memory/vmem.c:63-75 | a write keeps coherence |
| CacheCoherence.ReadByRight | src/memory/vmem.c:50-61 | a read returns the bytes last written by anyone and changes nothing anyone sees |
| CacheCoherence.WriteByRight | src/memory/vmem.c:63-75 | a write is a store into flat memory |
| CacheCoherence.ReadCopies | src/memory/cache.c:329-352 | after a read the reader holds the block and the other core holds what it held, that block no longer dirty |
| CacheCoherence.WriteCopies | src/memory/cache.c:301-327 | after a write the writer holds the block dirty and the other core has lost it and nothing else |
| CacheCoherence.SnoopCounts | src/memory/cache.c:306-352 | a snoop counts a write-back exactly if the copy is dirty |
| CacheCoherence.Indistinguishable | src/memory/vmem.c:15-75 | over every interleaving every access returns what flat memory returns |
| CacheCoherence.Coherence | src/memory/cache.c:293-297 | the same from cold caches |
| CachePrefetch.PrefetchKeeps | src/memory/cache.c:186-197 | prefetching changes nothing the core sees and, with enough unused ways, not the demanded line |
| CachePrefetch.PrefetchSafe | src/memory/cache.c:200-212 | with more than two ways the access uses the demanded block, for any prefetch policy |
| CachePrefetch.PrefetchUnsafe | src/memory/cache.c:186-212 | with one or two ways a policy makes the access use another block |
| CachePrefetch.PrefetchSafeIff | include/memory/cache.h:61 | safe under every policy exactly if there are more ways than prefetches |
| CachePrefetch.Indistinguishable | src/memory/cache.c:270-281 | one core, any policy, with state or without, any run: every access returns what flat memory returns |
| CacheLru.ReadAccesses | src/memory/cache.c:200-212 | a read refreshes the line it hits or replaces the least recently used one |
| CacheLru.WriteAccesses | src/memory/cache.c:270-281 | so does a write |
| CacheLru.ServeAccesses | src/memory/cache.c:200-281 | any access without prefetching refreshes or replaces so, and leaves the levels valid |
| CacheLru.StackDistance | src/memory/cache.c:58-93 | after any reads and writes from cold caches, with any number of ways, an access hits exactly if its block was used before and fewer than w other blocks of the set were used since |
| CacheTraffic.LowAccesses | src/memory/cache.c:96-132 | every refill and write-back refreshes its block in the second level or replaces the least recently used one |
| CacheTraffic.LowStackDistance | src/memory/cache.c:96-132 | after any refills and write-backs the second level hits exactly if fewer than w other blocks of the set were accessed since |
| CacheTraffic.ServeAsks | src/memory/cache.c:134-154 | an access of the first level asks the second for nothing on a hit, and for the victim's write-back and the block on a miss |
| CacheTraffic.HitsExact | src/memory/cache.c:66-92 | the hit counter is the number of accesses whose block is recent enough, the miss counter the others |
| CacheTraffic.CountersBalance | src/memory/cache.c:96-154 | misses are evictions plus lines held, and second-level accesses are first-level misses plus write-backs |
| CacheTraffic.FindRemembers | src/memory/cache.c:66-85 | a hit is remembered as the most recently used way, a miss changes no set |
| CacheMachine.Level.constructor | src/memory/cache.c:44-55 | a new cache is empty |
| CacheMachine.Level.Search | src/memory/cache.c:63-92 | one scan finds the block, or the least recently used way |
| CacheMachine.Level.FindLine | src/memory/cache.c:58-93 | the lookup in place is the lookup on values |
| CacheMachine.Level.FindLineQuiet | src/memory/cache.c:157-184 | the quiet lookup in place is the quiet lookup on values |
| CacheMachine.Memory.Write | src/memory/cache.c:96-132 | a write-back in place is the write-back on values |
| CacheMachine.Memory.Read | src/memory/cache.c:96-132 | a second-level read in place is the read on values |
| CacheMachine.Memory.FetchBlock | src/memory/cache.c:134-154 | the fill in place is the fill on values |
| CacheMachine.Memory.PrefetchFrom | src/memory/cache.c:186-197 | the prefetch loop is prefetching on values |
| CacheMachine.Memory.CacheRead | src/memory/cache.c:200-212 | the read in place is the read on values |
| CacheMachine.Memory.CacheWrite | src/memory/cache.c:270-281 | the write in place is the write on values |
| CacheMachine.Memory.SnoopFlush | src/memory/cache.c:334-352 | the flushing snoop in place is the snoop on values |
| CacheMachine.Memory.SnoopInvalidate | src/memory/cache.c:306-327 | the invalidating snoop in place is the snoop on values |
| CacheMachine.System.LoadBy | src/memory/vmem.c:15-61 | a load by either core returns what flat memory holds |
| CacheMachine.System.StoreBy | src/memory/vmem.c:63-75 | a store by either core is a store into flat memory |
| Peterson.AdvanceKeeps | labs/order_lab/Q3/peterson.c:77-115 | every program step keeps the invariant if the fence after the store to turn is there |
| Peterson.DrainKeeps | include/cpu/ooo.h:106-111 | every drain keeps the invariant |
| Peterson.MutualExclusion | labs/order_lab/Q3/peterson.c:77-115 | with that fence, in every interleaving at most one core is in the critical section, until its release has drained |
| Peterson.NoLostUpdates | labs/order_lab/Q3/peterson.c:102-118 | with that fence, the count reported at the end is 2 * N, for every N |
| Peterson.FencesNeeded | labs/order_lab/Q3/peterson.c:77-98 | mutual exclusion over every interleaving holds if and only if the fence after the store to turn is there, whatever the other two |
| Peterson.CountNeedsFence | labs/order_lab/Q3/peterson.c:77-118 | the reported count is right in every run for every N if and only if that fence is there |
| PetersonProgress.Completes | labs/order_lab/Q3/peterson.c:77-118 | with that fence every run can be continued until both cores are done, and then 2 * N is reported |
| Litmus.AtCheck | labs/order_lab/Q1/litmus.c:94-97 | at the check both loads of the trial are done and saved |
| Litmus.NoViolations | labs/order_lab/Q1/litmus.c:67-100 | the fenced build never counts a violation, for any number of trials |
| Litmus.FenceNeeded | labs/order_lab/Q1/litmus.c:72-97 | no interleaving counts a violation if and only if the fence is there |
| Litmus.PhasesSeparated | labs/order_lab/Q1/litmus.c:54-65 | the barrier keeps the cores within one phase of each other |
| LitmusProgress.Completes | labs/order_lab/Q1/litmus.c:67-100 | every fenced run can be continued until both cores have completed all trials |
| Division.Clz | am/klib/src/int64.c:640-669 | the halving count is the number of leading zeros |
| Division.Ctz | am/klib/src/int64.c:675-708 | the halving count is the number of trailing zeros |
| Division.SmallShift | am/klib/src/int64.c:515-520 | shifting in halves sets up quotient and remainder, for shifts below 32 |
| Division.LargeShift | am/klib/src/int64.c:566-570 | the same for shifts above 32 |
| Division.SignCompares | am/klib/src/int64.c:626-628 | the sign of the wrapped difference is the comparison, if the operands are less than half the range apart |
| Division.ShiftSubtract | am/klib/src/int64.c:611-633 | the loop divides: q * d + r = n and r < d |
| Division.Udivmod | am/klib/src/int64.c:426-634 | for every a and every b other than 0, q * b + r = a and r < b |
| Division.Div | am/klib/src/int64.c:369-379 | the quotient truncated toward zero, the one overflow wrapping round |
| Division.Mod | am/klib/src/int64.c:393-404 | the remainder with the sign of the dividend |
| Division.DivMod | am/klib/src/int64.c:383-389 | both at once |
| Expr.ArithmeticMeans | src/monitor/expr.c:273-287 | sums, differences and products modulo 2 to the 64th, unsigned quotients and remainders, failure exactly for division by zero |
| Expr.BitwiseMeans | src/monitor/expr.c:288-290 | the bitwise operators, bit by bit |
| Expr.ComparisonMeans | src/monitor/expr.c:293-302 | comparisons and logical operators return 1 or 0 |
| Expr.DerivedIsTight | src/monitor/expr.c:54-80 | what the C grammar derives is grouped as the table of precedences needs |
| Expr.TightIsDerived | src/monitor/expr.c:54-80 | and whatever is grouped so is derived by the grammar |
| Expr.FindsRoot | src/monitor/expr.c:224-268 | in a derivation the operator found is the one at the root |
| Expr.CheckRejects | src/monitor/expr.c:160-179 | an operation is never taken for a parenthesised group |
| Expr.CheckAccepts | src/monitor/expr.c:160-179 | a parenthesised group always is |
| Expr.DerivedEvaluates | src/monitor/expr.c:181-303 | every token list the grammar derives evaluates to the value of the derivation, or fails exactly if that divides by zero or is deeper than the limit |
| Expr.PrintThenEvaluate | src/monitor/expr.c:181-303 | any tree at all, printed with the groups it needs, evaluates to its value |
| Expr.Check | src/monitor/expr.c:160-179 | the loop computes the parentheses check |
| Expr.FindSplit | src/monitor/expr.c:224-268 | the nested loops find the operator to split at |
| Expr.Evaluate | src/monitor/expr.c:181-303 | the recursive evaluator with its success flag computes the evaluation function |
| PageTable.Decomposes | am/am/src/x86/qemu/vme.c:16-20 | directory index, table index and offset are the digits of the address |
| PageTable.MapTranslates | am/am/src/x86/qemu/vme.c:141-156 | after a map the processor sends that page to the frame, writable exactly if asked, and every other user address where it went |
| PageTable.UnmapTranslates | am/am/src/x86/qemu/vme.c:141-156 | after an unmap it sends that page nowhere and every other user address where it went |
| PageTable.MappedLookup | am/am/src/x86/qemu/vme.c:141-156 | mapping a page changes the entry found for that page and for no other address |
| PageTable.MappedFrame | am/am/src/x86/qemu/vme.c:57-75 | mapping touches the space's own tables only |
| PageTable.LatestMapping | am/am/src/x86/qemu/vme.c:141-156 | after any run of maps and unmaps the processor sends every user address where the latest call for its page sent it |
| PageTable.TeardownExact | am/am/src/x86/qemu/vme.c:77-87 | teardown frees each table page of the space once and no kernel table |
| PageTable.RunOwns | am/am/src/x86/qemu/vme.c:57-75 | after any run of maps and unmaps a space owns what it did and the pages handed out to it, and every other table is as before |
| PageTable.LifeOfSpace | am/am/src/x86/qemu/vme.c:117-156 | protect, any maps and unmaps, then unprotect frees exactly the pages handed out, each once, and restores all tables |
| PageTable.OthersGoOn | am/am/src/x86/qemu/vme.c:77-87 | a teardown leaves every space that owns none of the freed pages as it was |
| PageTable.NewSpace | am/am/src/x86/qemu/vme.c:117-135 | a new space translates addresses below 0x40000000 and from 0xfd000000 as the kernel does, and no others |
| PageTable.Vme.Walk | am/am/src/x86/qemu/vme.c:57-75 | the walk returns the entry of the table that the address's digits lead to, and allocates at most one table |
| PageTable.Vme.MapPage | am/am/src/x86/qemu/vme.c:141-156 | succeeds exactly on aligned addresses and a user page that is mapped for unmap and unmapped for map, and then changes where the processor sends that page only |
| PageTable.Vme.Protect | am/am/src/x86/qemu/vme.c:117-135 | a new directory has the kernel's entries and no others |
| PageTable.Vme.Teardown | am/am/src/x86/qemu/vme.c:77-87 | the recursion frees the tables in order |
| PageTable.Vme.Unprotect | am/am/src/x86/qemu/vme.c:137-139 | frees exactly what teardown frees, and those pages are tables no more |

## Left out

- Devices, SDL, MMIO callbacks, image loading, disassembly, the monitor's command loop, tracing, reports and difftest: input and output or foreign code.
- Accesses outside DRAM: the caches are modelled for cacheable addresses, and the out-of-order theorem follows a program as far as it accesses DRAM only.
- ecall, mret, ebreak, CSR instructions, PMP and privilege: only branches and jumps redirect fetch in the out-of-order engine, and counter CSRs depend on timing.
- Tomasulo.LsuSlot: the address a load computes at its first visit is written with its result, since nothing reads it before; MSHR slots and latency counters are the inputs Retry, Miss and Fill.
- Tomasulo.EuOf: an invalid instruction goes to an INT unit, where the source routes it by its opcode; no theorem is about its result.
- OooEngine.Engine.LsuUnit: MSHR slots, latency counters and the wait of a device access for the head are inputs (Retry, Miss and Fill) that may take any value.
- Tomasulo.CommitOne: a faulted head stops commit where the source panics; NeverPanics shows that this does not happen.
- OooEngine.Engine.FlushUnits: skips a latch that is flushed already; the source marks it as flushed again.
- OooEngine.Engine.SetStation: the 32-bit masks are sets of bit numbers, and the rings and tables are sequences held in the object.
- `unready_store_count`, statistics counters of that engine and the branch predictors' own state.
- Loads that a store covers in part and accesses across a block boundary: forwarding and caching do not support them; the exact condition for forwarding is proved.
- Instruction caches and self-modifying code: fetch is a total function of the pc.
- Prefetching with two cores: a prefetch does not snoop.
- CacheMachine.Level.Search: the timer and the counters are unbounded, and the initial minimum is the first way's stamp instead of the largest 64-bit number.
- Peterson.NoLostUpdates: the counter is unbounded, so 2 * N is not reduced modulo 2 to the 32nd.
- Expr.Evaluate: tokens are numbers, binary operators without shifts, and parentheses; lexing, registers, unary operators and the out-of-range read when no operator is found are not part of this model.
- PageTable.Vme.MapPage: entries are records of frame and flag bits, and the 64-bit four-level configuration is not part of this model.
- `vme_init`: building the kernel's own tables; a new address space copies whatever entries they have.
- Floating-point and remaining parts of AbstractMachine, litenes, `bpred2.c` and division by zero in `ir.c`.
