# Verified models of the O3 reference models

The repository checks an out-of-order RISC-V core with executable reference models in Python: a random program
generator, an Sv39 walker, a coherence bench, queues and predictors, and a bus router with the platform
description it rests on. This project models that code in Dafny and proves what the code is trusted for.

`dafny verify dfyconfig.toml` checks everything.

## What is modelled

* **Random programs** (`Rv64`, `Encoders`, `RandomRun`, `RandomProgram`). An RV64I machine with machine-mode
  traps runs what the generator emits. The random source is an arbitrary choice at every use. Whatever it chooses,
  the program makes its first store to the mailbox at exactly the event number that the generator announces, which
  is the target; loops, skipped words, traps through the program's own handler and data stores are all accounted
  for. The result of every arithmetic instruction but ADDI is an arbitrary function, so no claim depends on it.
  A program always exists for targets up to 4113: below that bound the code cannot reach the handler.
* **Sv39** (`Sv39`, `Sv39Rights`). The page-table builder keeps a tree of tables in a flat memory; the walk over that
  memory is the lookup in the finite map of the pages asked for, for every address, access and set of faulting reads;
  and an access is let through exactly when the bits of the page's flags allow it.
* **Coherence bench** (`Coherence`, `CoherenceLaws`, `CoherenceBench`). The home is unknown: each of its outputs is an
  action and each check of the bench a guard. Over every run, permissions and copies correspond, every copy and every
  queued answer carries golden data, the home can take all queued answers and each passes the bench's checks, the read
  check accepts exactly the values golden memory held since the read began, and no transaction is lost or answered
  twice. What each event does is told byte by byte and line by line.
* **Fetch return queue** (`ReturnQueue`, `ReturnRuns`, `ReturnFlow`, `ReturnModel`). Over every legal run, what is
  delivered is, in order and once each, exactly what was reserved and not killed, with its own response; the assertion
  of the kill loop never fires while identifiers are handed out in turn, and a kill then takes exactly the entries
  counted beyond the boundary.
* **Predictors.** `MainBtb` and `TageModels` hold both the delayed-training models and the frozen
  immediate-training references, and prove them observationally equal on every input sequence. `TagTable` proves
  that a row of tagged entries with a victim pointer is a bounded queue; `MainBtb` and `Ubtb` rest on it. `Tage` is
  the prediction and the training step, `TageLaws` what they learn and say, `TagePipe` how soon. For each predictor,
  what a packet teaches and what the next query is told are related without naming the functions in between.
* **Return-address stack** (`Ras`, `RasRuns`). The ring refines a bounded stack, and a checkpoint restores the whole
  stack, with the exact condition told from the operations of the run.
* **Early decode** (`IfuF1`). The decoder inverts the encoders, what a block delivers is a path of legal steps, and
  a corrected prediction is a fixpoint but in one case.
* **Platform and router** (`Platform`, `AxiDecode`, `AxiReads`, `AxiWrites`, `AxiRouter`). An accepted platform has
  disjoint regions; the generated lookup does not depend on their order; the router picks at most one exit, only
  for bursts whose bytes all lie in one permitted region, picks it for every aligned burst whose bytes do, and answers
  every transaction exactly once.
* `Rings`, `StableSort` and `Wrappers` are shared arithmetic, sorting and options.

The Python methods that update an object in place are methods of classes here (`Sv39.Tables`,
`CoherenceBench.Bench`, `ReturnModel.Model`, `MainBtb.PipelinedBtb`, `MainBtb.LegacyBtb`, `Ubtb.UbtbModel`,
`TageModels.TageModel`, `TageModels.LegacyTageModel`, `Ras.RasModel`, `AxiRouter.Router`). Each is proved equal to
a step function on values, and the properties of whole runs are lemmas about that function.

## Where the code does not do what might be expected

* **A store to a busy line** passes the bench's own checks and leaves a queued answer with stale data, or with a
  stale dirty mark (`Coherence.BusyStoreBreaks`). `Coherence.StoreExact` and `Coherence.StoreDrains` say when a store
  is harmless; it always is when the driver waits until the line is idle, as the random driver does
  (`sim/cocotb/l2_home/test_l2_home.py:187-194`, `Coherence.StoreKeeps`).
* **An eviction behind another answer about its line** passes the bench's checks, and the home taking both does not:
  a second eviction under another identifier (`Coherence.SecondEvictBreaks`), or one of a modified copy behind its
  downgrade (`Coherence.DowngradedEvictBreaks`). `Coherence.EvictExact` says when the whole queue can still be taken;
  it always can when the driver waits until the line is idle (`Coherence.IdleEvictHarmless`).
* **A grant of data while an answer for its line is queued** passes the bench's checks and breaks its copy when the
  answer is taken (`Coherence.GrantDuringAnswerBreaks`); `Coherence.GrantExact` gives the exact condition.
  `Coherence.ReachableStates` leaves out exactly the stores, evictions and grants after which its conclusion fails.
* **F1 fixpoint.** Evaluating a block again with the corrected prediction delivers the same entries, but asks for a
  correction again exactly when half an instruction is pending at the end of the block although the corrected
  instruction starts in the last slot (`IfuF1.FixpointExact`, `IfuF1.FixpointFails`). The evaluation accepts such an
  input; whether a fetch block can present it is not part of this model.
* **Return-stack recovery** is exact if and only if the entries under the checkpointed top are still in their slots
  (`Ras.RecoveryExact`), that is, if and only if no operation since wrote at a height under that top, heights taken
  modulo the depth (`RasRuns.RecoveryByHeights`); popping two and pushing, or overflowing, does
  (`Ras.DeepPushDamages`, `Ras.OverflowDamages`).
* **The router** refuses some unaligned bursts whose bytes all lie in a permitted region
  (`AxiDecode.UnalignedRefused`); for aligned bursts its decision is exact (`AxiDecode.AlignedHitsExact`).

## Model

| member | source | states |
|---|---|---|
| RandomProgram.Generate | sim/o3/gen_random.py:40-126 | for every choice stream: a target below 2000 is refused; a generated program stores to the mailbox for the first time at exactly event `target`, its code is legal, and targets up to 4113 always yield one |
| RandomProgram.ProgramReports | sim/o3/gen_random.py:45-51 | setup, any body of n events, the report, padding and the handler run for exactly n + 8 events up to the reporting store |
| RandomProgram.AssembledReports | sim/o3/gen_random.py:114-123 | the words put together by the generator are such a program, whatever the body and the padding |
| RandomProgram.PrologueRuns | sim/o3/gen_random.py:44-51 | the six setup words point x1 at the data, x3 at the mailbox and the trap vector at the handler, without touching the mailbox |
| RandomProgram.FinalStore | sim/o3/gen_random.py:114 | after the next-to-last event the machine is about to store 1 to the mailbox |
| RandomProgram.Bootable | sim/o3/gen_random.py:138-141 | a machine with the words laid out from the base address satisfies the boot condition the theorem assumes |
| RandomProgram.GenerateBody | sim/o3/gen_random.py:54-113 | the mixture loop ends with exactly target - 2 events, never overshooting |
| RandomProgram.SeedRegisters | sim/o3/gen_random.py:54-57 | 28 words of setup run in 28 events |
| RandomProgram.PickBlock | sim/o3/gen_random.py:59-113 | any template or the filler runs in its announced count of events, which fits the room left |
| RandomProgram.SystemBlock | sim/o3/gen_random.py:63-71 | a trap takes eight events, a CSR access one, and the handler survives both |
| RandomProgram.AluBlock | sim/o3/gen_random.py:72-86 | every arithmetic template is legal and takes one event |
| RandomProgram.BranchBlock | sim/o3/gen_random.py:87-99 | a countdown of n takes 1 + 3n events, a forward branch one or two |
| RandomProgram.JalBlock | sim/o3/gen_random.py:100-101 | the jump takes one event and skips the word after it |
| RandomProgram.MemoryBlock | sim/o3/gen_random.py:102-109 | loads and stores are aligned, stay in the data window and take one event |
| RandomRun.BlocksRun | sim/o3/gen_random.py:112-113 | event counts of blocks add up wherever the blocks are placed |
| RandomRun.TrapRoundTrip | sim/o3/gen_random.py:64-66 | a trapping word costs eight events, every register comes back, execution goes on at the next word |
| RandomRun.TrapBlock | sim/o3/gen_random.py:116-120 | so it is a block of eight events, through the program's own handler |
| RandomRun.CsrBlock | sim/o3/gen_random.py:68-71 | the CSR accesses the generator emits keep the vector base and the pointers |
| RandomRun.StoreBlock | sim/o3/gen_random.py:103-109 | a data store never reaches code or mailbox |
| RandomRun.LoadBlock | sim/o3/gen_random.py:103-109 | a data load never traps |
| RandomRun.LoopBlock | sim/o3/gen_random.py:88-93 | the countdown ends, whatever x2 held, after exactly 1 + 3n events |
| RandomRun.SkipBranchBlock | sim/o3/gen_random.py:95-99 | the six predicates on x0 take the branch exactly for codes 0, 5 and 7 |
| RandomRun.JumpBlock | sim/o3/gen_random.py:100-101 | the link register is free and the word after is skipped |
| RandomRun.ComputeBlock | sim/o3/gen_random.py:72-86 | one event, and only the destination changes |
| Encoders.DecodeBranch | sim/o3/gen_random.py:32-33 | every even offset in range decodes to itself, with its registers and condition |
| Encoders.DecodeJal | sim/o3/gen_random.py:36-37 | every even offset in range decodes to itself, with its link register |
| Encoders.DecodeStore | sim/o3/gen_random.py:28-29 | every store offset in range decodes to itself |
| Encoders.DecodeR | sim/o3/gen_random.py:24-25 | the register-register words decode to their operation |
| Encoders.DecodeCsr | sim/o3/gen_random.py:118 | the CSR words decode to their access |
| Encoders.FieldsI | sim/o3/gen_random.py:20-21 | the immediate words give back every field, and the offset when it is in range |
| Rv64.TrapReturns | sim/o3/gen_random.py:116-120 | a trap remembers where and why, and the return from it gives back mode and place |
| Rv64.StoredIsLoaded | sim/o3/gen_random.py:102-109 | a load gives back what a store of its size left, sign-extended when shorter than a register |
| Rv64.ConditionsPair | sim/o3/gen_random.py:87-99 | the branch conditions come in opposite pairs, signed and unsigned |
| Rv64.CsrReadBack | sim/o3/gen_random.py:68-71 | a control register gives back what was written, but for the bits it does not have, and no other changes |
| Sv39.Translate | sim/cocotb/mmu/mmu_model.py:7-27 | the loop over levels returns what the recursive walk returns, faults included |
| Sv39.WalkIsLookup | sim/cocotb/mmu/mmu_model.py:8-27 | over any built tree, for every address, access and set of faulting reads: an access fault exactly when a walked entry faults, otherwise the page's address or the fault its flags dictate, a page fault where nothing is mapped, and the global bit of the whole path |
| Sv39.MappedOffset | sim/cocotb/mmu/mmu_model.py:23-24 | va + off goes to pa + off within an aligned page |
| Sv39.LeafKeepsPromise | sim/cocotb/mmu/mmu_model.py:15-24 | a written leaf, read back, grants exactly what its flags say |
| Sv39.PointerLeads | sim/cocotb/mmu/mmu_model.py:26 | a written pointer, read back, leads to its table |
| Sv39.Tables.Map | sim/cocotb/mmu/test_mmu.py:34-43 | the builder keeps the tree, changes exactly the page asked for and leaves every existing table in place |
| Sv39.AddTable | sim/cocotb/mmu/test_mmu.py:38-39 | hanging an empty table under a free entry keeps the tree |
| Sv39.AddPage | sim/cocotb/mmu/test_mmu.py:41-42 | writing a leaf where no table hangs keeps the tree, with that page added |
| Sv39.OtherPagesKeep | sim/cocotb/mmu/test_mmu.py:34-43 | adding a page leaves every translation within another page as it was |
| Sv39.MapAll | sim/cocotb/mmu/test_mmu.py:34-43 | after any consistent requests the pages are exactly those asked for |
| Sv39Rights.GrantedNeeds | sim/cocotb/mmu/mmu_model.py:15-24 | whatever a walk over a built tree lets through needs, bit by bit: W for a store, X for a fetch, R (or X under mxr) for a load, U in user mode, and on a U page in supervisor mode sum and no fetch; A, and D for a store, unless adue; the address is within the page |
| Sv39Rights.GrantedSuffices | sim/cocotb/mmu/mmu_model.py:15-24 | conversely an aligned valid page with those bits lets the access through, to that address, with the global bit of its path |
| Sv39Rights.CanonicalMeans | sim/cocotb/mmu/mmu_model.py:9 | the sign-extension test accepts exactly the addresses whose bits 38 to 63 are all equal |
| Coherence.ReachableStates | sim/cocotb/l2_home/mem_agents.py:280-372 | every state reachable without the harmful stores, evictions and grants is coherent, its whole queue of answers can be taken and passes the checks, and reads are checked exactly |
| Coherence.StoreExact | sim/cocotb/l2_home/mem_agents.py:105-114 | a store keeps coherence if and only if every queued answer about its line carries the new value and says it is dirty |
| Coherence.StoreDrains | sim/cocotb/l2_home/mem_agents.py:105-114 | after a store the queue can be taken, every check passing and every state matching, if and only if no queued answer about its line carries another value |
| Coherence.StoreKeeps | sim/cocotb/l2_home/test_l2_home.py:187-194 | a store to a line that is not busy keeps coherence |
| Coherence.BusyStoreBreaks | sim/cocotb/l2_home/mem_agents.py:105-114 | a reachable state in which a store to a busy line breaks it |
| Coherence.GrantExact | sim/cocotb/l2_home/mem_agents.py:291-303 | a checked grant keeps coherence, and a queue that can be taken, if and only if no queued probe answer about its line carries another value |
| Coherence.GrantKeeps | sim/cocotb/l2_home/mem_agents.py:291-303 | an upgrade, or a grant with no queued answer for its line, keeps coherence |
| Coherence.GrantDuringAnswerBreaks | sim/cocotb/l2_home/mem_agents.py:291-303 | a reachable state in which a grant during a queued answer breaks it |
| Coherence.EvictExact | sim/cocotb/l2_home/mem_agents.py:149-153 | after an eviction the whole queue can be taken, every check passing and every state matching, if and only if no eviction or invalidation of the line, and no downgrade of a modified copy of it, was queued |
| Coherence.EvictKeeps | sim/cocotb/l2_home/mem_agents.py:149-153 | such an eviction keeps coherence |
| Coherence.SecondEvictBreaks | sim/cocotb/l2_home/mem_agents.py:333-336 | a reachable state in which a second eviction of a line is accepted and then fails the check on taking it |
| Coherence.DowngradedEvictBreaks | sim/cocotb/l2_home/mem_agents.py:333-348 | a reachable state in which an eviction of a modified copy behind its downgrade is accepted and then fails the check on taking it |
| Coherence.IdleEvictHarmless | sim/cocotb/l2_home/test_l2_home.py:196-198 | the driver's wait for an idle line ensures that |
| Coherence.AnswerKeeps | sim/cocotb/l2_home/mem_agents.py:216-224 | answering a due probe keeps coherence |
| Coherence.PutAckKeeps | sim/cocotb/l2_home/mem_agents.py:284-287 | completing a Put keeps coherence |
| Coherence.PlainResponseKeeps | sim/cocotb/l2_home/mem_agents.py:316-327 | errors and completed reads keep coherence |
| Coherence.DmaWriteKeeps | sim/cocotb/l2_home/mem_agents.py:304-315 | an acknowledged DMA write keeps coherence, because nobody holds the line |
| Coherence.TakeUpKeeps | sim/cocotb/l2_home/mem_agents.py:329-349 | taking a Put, an invalidation or a downgrade keeps coherence |
| Coherence.TakeProbeKeeps | sim/cocotb/l2_home/mem_agents.py:350-359 | taking a probe keeps coherence |
| Coherence.TakeRequestKeeps | sim/cocotb/l2_home/mem_agents.py:361-371 | taking a request keeps coherence |
| Coherence.OwnChecksHold | sim/cocotb/l2_home/mem_agents.py:333-342 | in a coherent state the check on the oldest queued answer cannot fail |
| Coherence.CoherentDrains | sim/cocotb/l2_home/mem_agents.py:329-349 | nor can any later one, however many answers the home takes |
| Coherence.ReadWindowExact | sim/cocotb/l2_home/mem_agents.py:319-322 | the read check accepts a value if and only if golden memory held it at some moment from the end of the start cycle to now |
| Coherence.WindowIsTruth | sim/cocotb/l2_home/mem_agents.py:319-321 | a line's history admits exactly what the snapshots of golden memory show |
| Coherence.CommitRecords | sim/cocotb/l2_home/mem_agents.py:112-113 | every golden write is recorded, in cycle order, the newest being the current value |
| Coherence.StoreLands | sim/cocotb/l2_home/mem_agents.py:109-113 | byte by byte: a store changes the bytes from its offset on, in its copy and in golden memory alike, and no other byte, line or queued answer |
| Coherence.DmaWriteLands | sim/cocotb/l2_home/mem_agents.py:307-313 | byte by byte: an acknowledged DMA write changes the bytes of its mask in golden memory, and nothing the bench holds |
| CoherenceLaws.NothingLost | sim/cocotb/l2_home/mem_agents.py:280-372 | over every run: each presented request is accepted or still presented, each accepted one answered once or still awaited, each eviction completed once or still under way |
| CoherenceLaws.CreditsHold | sim/cocotb/l2_home/mem_agents.py:116-126 | over every run no client has more than four requests pending, and the DMA port no more than one, under identifier 0 |
| CoherenceLaws.SubmitExact | sim/cocotb/l2_home/mem_agents.py:116-126 | a request may be submitted exactly on a free port, under a free identifier and within that credit |
| CoherenceLaws.CyclesCounted | sim/cocotb/l2_home/mem_agents.py:406 | the clock counts the cycles of a run, and no other step moves it |
| CoherenceLaws.IdleStays | sim/cocotb/l2_home/mem_agents.py:155-158 | while a line is not busy, nothing the home does touches its golden value, copy or permission, unless it begins a probe or takes a request about it, and it stays idle |
| CoherenceLaws.GrantAnswerExact | sim/cocotb/l2_home/mem_agents.py:289-303 | in a coherent state, exactly which grants are accepted, told from the copies held |
| CoherenceLaws.ReadAnswerExact | sim/cocotb/l2_home/mem_agents.py:316-322 | exactly which read answers are accepted: a value golden memory held since the read began, while nobody may write the line |
| CoherenceLaws.WriteAnswerExact | sim/cocotb/l2_home/mem_agents.py:304-307 | a DMA write is acknowledged without error only while nobody holds the line |
| CoherenceLaws.RequestExact | sim/cocotb/l2_home/mem_agents.py:361-367 | exactly which requests are accepted: a free identifier, more permission than is held, and no eviction of the line under way |
| CoherenceLaws.AnswerWaits | sim/cocotb/l2_home/mem_agents.py:216-220 | a probe is answered as soon as the queue is empty and the home owes the cache no answer about the line, and never before |
| CoherenceLaws.ProbeExact | sim/cocotb/l2_home/mem_agents.py:350-358 | the DMA tag of an invalidation is up exactly when a DMA write of its line awaits its acknowledgement; behind an untagged one none is accepted |
| CoherenceLaws.GrantLands | sim/cocotb/l2_home/mem_agents.py:291-303 | a grant gives the copy and the permission it says, of golden data, and touches no other line |
| CoherenceLaws.AnswerLands | sim/cocotb/l2_home/mem_agents.py:329-349 | an eviction or invalidation gives the line up, a downgrade leaves it shared, no other line is touched, and the probe is over |
| CoherenceLaws.RespondEnds | sim/cocotb/l2_home/mem_agents.py:280-289 | an answer ends the transaction or eviction that it names, and no other |
| CoherenceLaws.RequestLands | sim/cocotb/l2_home/mem_agents.py:369-371 | an accepted request moves from its port to the outstanding ones as it is |
| CoherenceLaws.RequestCarried | sim/cocotb/l2_home/mem_agents.py:116-126 | and asks for what it was submitted for, from the cycle of its submission |
| CoherenceBench.Bench.StoreBytes | sim/cocotb/l2_home/mem_agents.py:105-114 | refuses what the checks refuse, else takes the store step; the whole state is stated |
| CoherenceBench.Bench.EvictLine | sim/cocotb/l2_home/mem_agents.py:149-153 | the evict step, or nothing when the Put credit is in use |
| CoherenceBench.Bench.SubmitRequest | sim/cocotb/l2_home/mem_agents.py:116-126 | the submit step, or nothing when the port or credit is taken |
| CoherenceBench.Bench.AnswerProbe | sim/cocotb/l2_home/mem_agents.py:216-224 | queues the answer exactly when it is due, and refuses wrong owner bits |
| CoherenceBench.Bench.TakeResponse | sim/cocotb/l2_home/mem_agents.py:280-328 | the response step of any client, or nothing when a check fails |
| CoherenceBench.Bench.TakeGrant | sim/cocotb/l2_home/mem_agents.py:291-303 | the grant step, or nothing when a check fails |
| CoherenceBench.Bench.MergeLine | sim/cocotb/l2_home/mem_agents.py:308-312 | the masked bytes of the written line over the golden ones |
| CoherenceBench.Bench.InWindowNow | sim/cocotb/l2_home/mem_agents.py:319-322 | the scan of the history decides the read check |
| CoherenceBench.Bench.AcceptUp | sim/cocotb/l2_home/mem_agents.py:329-349 | the home's step on the oldest answer |
| CoherenceBench.Bench.AcceptProbe | sim/cocotb/l2_home/mem_agents.py:350-359 | the probe step, or nothing when a check fails |
| CoherenceBench.Bench.AcceptRequest | sim/cocotb/l2_home/mem_agents.py:361-371 | the request step, or nothing when a check fails |
| ReturnQueue.EveryRun | sim/cocotb/fetch_return_queue/fetch_return_queue_model.py:50-85 | over every legal run: delivered, live and killed requests partition the reserved ones, deliveries are in order of reservation, each once, with its own response, from a snapshot newer than any update to it |
| ReturnQueue.TickConsistent | sim/cocotb/fetch_return_queue/fetch_return_queue_model.py:55-85 | occupied slots are exactly the live order and the zombies, and the snapshot is the oldest entry |
| ReturnQueue.TickBooked | sim/cocotb/fetch_return_queue/fetch_return_queue_model.py:65-84 | one edge keeps the accounting of requests, answers, kills and deliveries |
| ReturnQueue.TickCurrent | sim/cocotb/fetch_return_queue/fetch_return_queue_model.py:45-64 | no snapshot survives an update to its entry |
| ReturnQueue.ZombieWaits | sim/cocotb/fetch_return_queue/fetch_return_queue_model.py:69-72 | a zombie slot is freed by its own response and by nothing else |
| ReturnQueue.OrderedKillsSuffix | sim/cocotb/fetch_return_queue/fetch_return_queue_model.py:73-83 | with identifiers ordered from the head, every kill takes a suffix of program order |
| ReturnQueue.CountingIsOrdered | sim/cocotb/fetch_return_queue/fetch_return_queue_model.py:76 | identifiers that count up within one turn of the ring are so ordered, for every wrap position and generation |
| ReturnQueue.KillKeepsOrder | sim/cocotb/fetch_return_queue/fetch_return_queue_model.py:73-83 | the survivors are a prefix and stay ordered |
| ReturnQueue.AssertionHolds | sim/cocotb/fetch_return_queue/fetch_return_queue_model.py:82 | then the assertion in the kill loop cannot fire |
| ReturnRuns.AssertionNeverFires | sim/cocotb/fetch_return_queue/fetch_return_queue_model.py:55-85 | over every run whose reservations count on within one turn of the ring and whose head passes only delivered or killed entries, live identifiers are ordered from the head at every edge and that assertion never fires |
| ReturnRuns.EdgeKeeps | sim/cocotb/fetch_return_queue/fetch_return_queue_model.py:65-85 | one such edge keeps the counts of the live entries: a kill takes them from the end, a delivery from the front |
| ReturnRuns.KillTakes | sim/cocotb/fetch_return_queue/fetch_return_queue_model.py:73-84 | one kill, with the live identifiers counting up: with kill_all nothing survives; otherwise exactly the entries up to kill_id do, kill_id itself unless kill_self with slot 0; a killed slot keeps a zombie until its response |
| ReturnRuns.KillsExactly | sim/cocotb/fetch_return_queue/fetch_return_queue_model.py:73-84 | so it is at every edge of every such run |
| ReturnFlow.ShownNext | sim/cocotb/fetch_return_queue/fetch_return_queue_model.py:55-64 | what is on display after every edge |
| ReturnFlow.HandedOver | sim/cocotb/fetch_return_queue/fetch_return_queue_model.py:50-54 | an entry is handed over exactly when the reader takes it in a cycle without reset, kill or update of it |
| ReturnFlow.OrderNext | sim/cocotb/fetch_return_queue/fetch_return_queue_model.py:65-84 | then and only then the oldest entry leaves; a reservation joins at the end |
| ReturnFlow.TwoEdges | sim/cocotb/fetch_return_queue/fetch_return_queue_model.py:55-84 | a complete head is shown after one edge and handed over in the next cycle |
| ReturnFlow.Streams | sim/cocotb/fetch_return_queue/fetch_return_queue_model.py:55-84 | without stalls an entry is handed over in every cycle |
| ReturnFlow.ReservationLands | sim/cocotb/fetch_return_queue/fetch_return_queue_model.py:65-68 | a reservation takes an empty slot, the lowest unless one is named, for an entry without its response |
| ReturnFlow.ResponseLands | sim/cocotb/fetch_return_queue/fetch_return_queue_model.py:69-72 | a response completes its entry with its data and exception, or frees a zombie |
| ReturnModel.Model.Tick | sim/cocotb/fetch_return_queue/fetch_return_queue_model.py:55-85 | one edge on the object is the step on values; it fails exactly when an assertion of the model does |
| ReturnModel.Model.Kill | sim/cocotb/fetch_return_queue/fetch_return_queue_model.py:73-83 | the loop succeeds if and only if the killed are a suffix |
| ReturnModel.Model.Visible | sim/cocotb/fetch_return_queue/fetch_return_queue_model.py:50-54 | what the ports show |
| ReturnModel.Model.FindFree | sim/cocotb/fetch_return_queue/fetch_return_queue_model.py:48-49 | the lowest free slot, or slot 0 when there is none |
| ReturnModel.Model.NextBrief | sim/cocotb/fetch_return_queue/fetch_return_queue_model.py:41-44 | the entry behind the one on display |
| TagTable.ComputeFold | sim/cocotb/main_btb/btb_model.py:89-97 | the loop over the address bits is the fold, whose bits are parities by TagTable.FoldIsParity |
| TagTable.FoldIsParity | sim/cocotb/main_btb/btb_model.py:89-97 | a fold bit is set exactly when an odd number of the address bits at its distance are |
| TagTable.LookupIsFind | sim/cocotb/main_btb/btb_model.py:102-105 | the row finds a tag exactly when the queue holds it |
| TagTable.InsertIsEnqueue | sim/cocotb/main_btb/btb_model.py:133-157 | training a row is an update in place, a fill of the first gap, or the oldest replaced |
| MainBtb.ObservationallyEqual | sim/cocotb/main_btb/legacy_btb_reference.py:98-155 | from reset, the delayed and the immediate model show the same in every cycle on every input sequence |
| MainBtb.TracesAgree | sim/cocotb/main_btb/btb_model.py:99-123 | so they do from any pair of related states |
| MainBtb.EdgeKeepsRelated | sim/cocotb/main_btb/btb_model.py:107-123 | every edge keeps: reference table = delayed table trained with the waiting packet |
| MainBtb.SetIsQueue | sim/cocotb/main_btb/btb_model.py:125-157 | a set always holds its last allocations, oldest at the victim pointer, and never a tag twice |
| MainBtb.DelayedHolds | sim/cocotb/main_btb/btb_model.py:112-113 | the delayed table lacks exactly the last packet since the last reset |
| MainBtb.TrainTable | sim/cocotb/main_btb/btb_model.py:125-157 | the search for a way and the update are the training step |
| MainBtb.PipelinedBtb.Tick | sim/cocotb/main_btb/btb_model.py:107-123 | the object's edge is the delayed step, and its assertion fails exactly for a waiting packet that names no slot |
| MainBtb.ComputeShown | sim/cocotb/main_btb/btb_model.py:99-105 | the scan of the ways finds the first entry with the tag, or answers with a miss |
| MainBtb.LegacyBtb.Tick | sim/cocotb/main_btb/legacy_btb_reference.py:106-155 | the object's edge is the immediate step, and its assertion fails exactly for a packet that names no slot |
| MainBtb.TaughtIsTold | sim/cocotb/main_btb/btb_model.py:125-157 | what a packet teaches is what the next query of its region is told: slot, type, stack action and target of a taken instruction, the old ones otherwise, and masks that grow by exactly what was committed |
| MainBtb.OthersKeep | sim/cocotb/main_btb/btb_model.py:126-131 | a packet that carries nothing, or is for another set, changes no answer |
| MainBtb.AnswerShown | sim/cocotb/main_btb/legacy_btb_reference.py:98-120 | a query is answered a cycle later over the table at its edge; a stall keeps it, a kill or reset drops it |
| MainBtb.ColdMisses | sim/cocotb/main_btb/btb_model.py:75-81 | after a reset every query misses |
| MainBtb.SetsGoRound | sim/cocotb/main_btb/btb_model.py:83-84 | the addresses of a region share a set, and consecutive regions go round the sets |
| MainBtb.TagBits | sim/cocotb/main_btb/btb_model.py:86-97 | a tag bit is the parity of the address bits above the set number at its distance |
| Ubtb.TableIsQueue | sim/cocotb/ubtb/ubtb_model.py:117-161 | the table is the queue of its last allocations with updates in place, and never holds a tag twice |
| Ubtb.EntriesSane | sim/cocotb/ubtb/ubtb_model.py:138-160 | counters stay in range, only a branch has a running counter, and an entry's owner is in its mask |
| Ubtb.TaughtIsShown | sim/cocotb/ubtb/ubtb_model.py:88-161 | what a taken instruction teaches is what the next query of its region is told |
| Ubtb.CounterFollows | sim/cocotb/ubtb/ubtb_model.py:138-160 | the counter of an entry steps with the outcomes of the branch that owns it, within 0 to 3, and starts afresh with a new owner; masks grow by exactly what was committed |
| Ubtb.NotTakenTwice | sim/cocotb/ubtb/ubtb_model.py:88-161 | after two packets in which its owner is not taken a region no longer redirects, whatever its counter was |
| Ubtb.FirstTaught | sim/cocotb/ubtb/ubtb_model.py:126-160 | a region enters the table with a taken instruction, and with nothing else |
| Ubtb.QueryTold | sim/cocotb/ubtb/ubtb_model.py:92-115 | what a query is told of an entry, or of none |
| Ubtb.NothingAsked | sim/cocotb/ubtb/ubtb_model.py:89-90 | without a query nothing is shown |
| Ubtb.RegionAndSlot | sim/cocotb/ubtb/ubtb_model.py:92-93 | the masks and shifts give the region and the slot of an address |
| Ubtb.TagBits | sim/cocotb/ubtb/ubtb_model.py:80-86 | a tag bit is the parity of the region bits at its distance |
| Ubtb.UbtbModel.Tick | sim/cocotb/ubtb/ubtb_model.py:117-161 | the object's edge is the step on values |
| Ubtb.UbtbModel.VisibleNow | sim/cocotb/ubtb/ubtb_model.py:88-115 | the search of the table answers the query |
| Tage.PackUnpack | sim/cocotb/tage/tage_model.py:146-151 | training reads back from the metadata word what the prediction put there, for every slot |
| Tage.ProviderIsLongest | sim/cocotb/tage/tage_model.py:129-152 | the provider is the longest matching history, 7 stands for the base, and the masks say the same |
| Tage.ScanSlot | sim/cocotb/tage/tage_model.py:130-145 | the loop over tables finds the last match and the prediction before it |
| Tage.ComputePrediction | sim/cocotb/tage/tage_model.py:125-152 | the loop over slots fills the masks and the metadata word |
| Tage.TrainOk | sim/cocotb/tage/tage_model.py:168-223 | counters and usefulness stay in range |
| Tage.TrainTouches | sim/cocotb/tage/tage_model.py:177-223 | training changes only the rows its own query indexes |
| Tage.IndependentTrain | sim/cocotb/tage/tage_model.py:154-162 | packets for different rows train in either order, and reading the second's rows early changes nothing |
| TageLaws.TrainsRows | sim/cocotb/tage/tage_model.py:174-223 | what a packet makes of the rows it indexes, slot by slot: the provider that still matches is reinforced, its counter with the outcome and its usefulness with being right against the alternative; a wrong direction claims the first claimable row of a longer history, weak in the direction of the outcome, or ages the next longer one |
| TageLaws.BaseTrained | sim/cocotb/tage/tage_model.py:168-169 | a committed slot's base counter rises by one when taken, falls by one when not, within its range; any other slot keeps its own |
| TageLaws.LearnsDirection | sim/cocotb/tage/tage_model.py:125-186 | a branch slot taken 2^(ctr_bits - 1) times in a row is then predicted taken, not taken as often not taken, as long as no tagged row speaks for it |
| TageLaws.CounterSettles | sim/cocotb/tage/tage_model.py:168-186 | that many packets of one outcome leave the counter in that outcome's half, whatever it was |
| TageLaws.ReinforceLaw | sim/cocotb/tage/tage_model.py:194-203 | reinforcement touches the provider's row alone |
| TageLaws.AllocateLaw | sim/cocotb/tage/tage_model.py:204-220 | allocation touches one row at most, and only after a wrong direction |
| TageLaws.ClaimLaw | sim/cocotb/tage/tage_model.py:211-217 | a claimed row is tagged for the branch, weak for the slot, and keeps other slots only under the same tag |
| TageLaws.DirectionMeans | sim/cocotb/tage/tage_model.py:129-152 | the direction of a slot is that of its provider, unless the provider is in the middle of its range and not useful, when the shorter histories are asked |
| TageLaws.ColdStart | sim/cocotb/tage/tage_model.py:85-91 | after a reset every branch is predicted not taken and no tagged row provides |
| TageLaws.IdleKeeps | sim/cocotb/tage/tage_model.py:175-176 | a packet that commits nothing teaches nothing |
| TageLaws.QueryBits | sim/cocotb/tage/tage_model.py:94-118 | each index bit is the address parity against a history bit, each tag bit against two |
| TageLaws.FieldsTile | sim/cocotb/tage/tage_model.py:106-116 | the folds of the tables lie in the history word without gap or overlap |
| TageModels.ObservationallyEqual | sim/cocotb/tage/legacy_tage_reference.py:152-224 | from reset, for all inputs, the delayed model shows what the reference shows when driven with the accepted packets one cycle later |
| TageModels.TracesAgree | sim/cocotb/tage/tage_model.py:225-239 | so it does from any pair of related states |
| TageModels.EdgeKeepsRelated | sim/cocotb/tage/tage_model.py:225-239 | every edge keeps: reference store = delayed store trained with the packet about to be written |
| TageModels.AcceptedCommutes | sim/cocotb/tage/tage_model.py:154-162 | an accepted packet commutes with the one waiting before it |
| TageModels.RefusedOnce | sim/cocotb/tage/tage_model.py:154-162 | a refused packet is accepted one cycle later |
| TageModels.ApplyPacket | sim/cocotb/tage/tage_model.py:174-223 | the loops over slots and tables, writing back touched rows only, are the training step |
| TageModels.TrainSlot | sim/cocotb/tage/tage_model.py:192-220 | one slot's update and allocation, with the rows it touched |
| TageModels.TageModel.Tick | sim/cocotb/tage/tage_model.py:225-239 | the object's edge is the delayed step |
| TageModels.TageModel.VisibleNow | sim/cocotb/tage/tage_model.py:164-166 | what the ports show |
| TageModels.LegacyTageModel.Tick | sim/cocotb/tage/legacy_tage_reference.py:213-224 | the object's edge is the immediate step |
| TagePipe.AnswerTakesTwo | sim/cocotb/tage/legacy_tage_reference.py:213-224 | a query is answered two cycles later, from the store that has learnt the packet of its own cycle |
| TagePipe.Interrupted | sim/cocotb/tage/tage_model.py:164-166 | a stall keeps both query registers, a kill or reset drops both, and nothing is shown |
| TagePipe.ReadyExact | sim/cocotb/tage/tage_model.py:154-162 | a packet is refused exactly in reset or when it shares a row with the one waiting |
| TagePipe.WrittenLater | sim/cocotb/tage/tage_model.py:225-233 | an accepted packet is written two edges later, a refused one never |
| Ras.RingIsStack | sim/cocotb/ras/ras_model.py:64-78 | the ring refines the bounded stack that forgets its oldest entry |
| Ras.RecoveryExact | sim/cocotb/ras/ras_model.py:60-63 | recovering gives back the checkpointed stack if and only if the entries under its top are still in their slots |
| Ras.RecoveryRestores | sim/cocotb/ras/ras_model.py:54-78 | it does after any run in which no push overflows and no write ends below the checkpointed height, nested recoveries included, and the repair acts on that stack |
| RasRuns.RunWrites | sim/cocotb/ras/ras_model.py:54-78 | after any run without a reset, the pointer and count are those of the height, and each position holds what the run last wrote there or what it held |
| RasRuns.RecoveryByWrites | sim/cocotb/ras/ras_model.py:54-78 | after any such run, nested recoveries included, a checkpoint brings the whole stack back if and only if, at each height under its top, the run last wrote nothing or the same address |
| RasRuns.RecoveryByHeights | sim/cocotb/ras/ras_model.py:66-78 | after operations that write addresses not on the stack, it does if and only if none of them wrote at a height under its top, modulo the depth |
| Ras.EmptyCheckpoint | sim/cocotb/ras/ras_model.py:38-40 | a checkpoint of at most one entry is always good |
| Ras.DeepPushDamages | sim/cocotb/ras/ras_model.py:66-73 | two pops and a push replace the entry under the top |
| Ras.OverflowDamages | sim/cocotb/ras/ras_model.py:66-69 | an overflowing push replaces the oldest entry |
| Ras.EventsTell | sim/cocotb/ras/ras_model.py:42-52 | the overflow and underflow bits are up exactly when the stack loses an entry or has none to give |
| Ras.QuietCycles | sim/cocotb/ras/ras_model.py:42-57 | a cycle that does nothing reports nothing; a reset empties the stack |
| Ras.CheckpointShows | sim/cocotb/ras/ras_model.py:38-40 | a checkpoint shows the height of the stack and its top |
| Ras.RasModel.Step | sim/cocotb/ras/ras_model.py:54-78 | the object's edge is the step on values |
| Ras.RasModel.ReadCheckpoint | sim/cocotb/ras/ras_model.py:38-40 | the checkpoint port |
| IfuF1.DecodeJump | sim/cocotb/ifu_f1/ifu_f1_model.py:46-49 | decoding a jump gives its class, the x1/x5 action and pc + offset modulo 2^64 |
| IfuF1.DecodeBranch | sim/cocotb/ifu_f1/ifu_f1_model.py:42-45 | decoding a branch gives its class and pc + offset modulo 2^64 |
| IfuF1.DecodeIndirect | sim/cocotb/ifu_f1/ifu_f1_model.py:50-58 | decoding an indirect jump gives the stack action of both registers |
| IfuF1.ClassMeans | sim/cocotb/ifu_f1/ifu_f1_model.py:38-59 | no other word is a branch or a jump |
| IfuF1.SameJump | sim/cocotb/ifu_f1/ifu_f1_model.py:16-19 | the two jump encoders of the repository agree |
| IfuF1.SameBranch | sim/cocotb/ifu_f1/ifu_f1_model.py:26-29 | the two branch encoders agree |
| IfuF1.DeliveredSound | sim/cocotb/ifu_f1/ifu_f1_model.py:126-161 | a delivered entry that did not fault goes to a legal successor, and is marked taken exactly when it goes by a control-flow instruction |
| IfuF1.CorrectedExactly | sim/cocotb/ifu_f1/ifu_f1_model.py:137-155 | an instruction is left alone if and only if the prediction is right about it |
| IfuF1.CorrectionMeans | sim/cocotb/ifu_f1/ifu_f1_model.py:145-160 | what target, stack action and history update a correction carries |
| IfuF1.PathSound | sim/cocotb/ifu_f1/ifu_f1_model.py:120-163 | the delivered entries are a path, and a correction asks for the address after its last entry |
| IfuF1.RequestExact | sim/cocotb/ifu_f1/ifu_f1_model.py:156-160 | what a correction carries: its instruction, where that goes, the address after it, the history update of a taken branch alone and the stack action of a taken correction |
| IfuF1.WalkStops | sim/cocotb/ifu_f1/ifu_f1_model.py:120-163 | no item before the last delivered one stops the block, and delivery ends early only at one that does |
| IfuF1.EvaluateSound | sim/cocotb/ifu_f1/ifu_f1_model.py:115-169 | the whole evaluation is such a path, with the last entry marked |
| IfuF1.FixpointExact | sim/cocotb/ifu_f1/ifu_f1_model.py:115-169 | the repaired prediction delivers the same entries, and is corrected again if and only if a pending half instruction meets a correction in the last slot |
| IfuF1.FixpointFails | sim/cocotb/ifu_f1/ifu_f1_model.py:164-166 | an input on which it is corrected again |
| IfuF1.WalkFixpoint | sim/cocotb/ifu_f1/ifu_f1_model.py:120-163 | before the rule for a pending half instruction, the repaired prediction is never corrected |
| IfuF1.ComputeWalk | sim/cocotb/ifu_f1/ifu_f1_model.py:120-163 | the loop with its early exit is the recursive walk |
| IfuF1.ComputeEvaluate | sim/cocotb/ifu_f1/ifu_f1_model.py:115-169 | the evaluation |
| IfuF1.BlockIsContiguous | sim/cocotb/ifu_f1/ifu_f1_model.py:104-112 | a test block is contiguous and in slot order |
| StableSort.SortedKeepsAll | sim/cocotb/ifu_f1/ifu_f1_model.py:122 | sorting keeps the items and puts them in order |
| Platform.LoadPlatform | litex_wrapper/o3/platform.py:8-51 | the checks, one after the other, report exactly the first thing wrong with a description, whose regions must be pairwise disjoint |
| Platform.SortedNeighbours | litex_wrapper/o3/platform.py:26-29 | comparing neighbours by origin accepts exactly the pairwise disjoint regions |
| Platform.PowerOfTwoTest | litex_wrapper/o3/platform.py:19 | `size & (size - 1)` is zero exactly for powers of two |
| Platform.RegionCheck | litex_wrapper/o3/platform.py:15-22 | the three region checks together accept exactly the well-formed regions |
| Platform.AcceptedRegions | litex_wrapper/o3/platform.py:8-51 | an accepted description has well-formed, distinct, disjoint regions |
| Platform.AcceptedExactly | litex_wrapper/o3/platform.py:8-51 | a description is accepted if and only if its regions are whole, differently named and share no address, its pages lie apart in a control window of 64 KiB to 1 MiB, its interrupt numbers are distinct and in range, and its SD card writes into main memory |
| Platform.OneRegion | litex_wrapper/o3/platform.py:26-29 | no address lies in two of them |
| Platform.CheckPages | litex_wrapper/o3/platform.py:33-40 | accepts exactly the distinct aligned pages inside the window |
| Platform.AcceptedWindow | litex_wrapper/o3/platform.py:66-75 | the accepted address width reaches exactly the words of the window |
| Platform.CsrPagesExact | litex_wrapper/o3/platform.py:61-63 | page numbers lead back to their pages and are never shared |
| Platform.Lookup | scripts/gen_platform_pkg.py:25-34 | the emitted sequence of overwriting tests is the last match |
| Platform.OrderIndependent | scripts/gen_platform_pkg.py:28-33 | over an accepted description the lookup does not depend on the order of the regions |
| Platform.LookupExact | scripts/gen_platform_pkg.py:25-34 | an access has attributes exactly when one region holds it, and then that region's |
| Platform.LookupTells | scripts/gen_platform_pkg.py:29-33 | an access inside one region is told that region's rights, atomic and reserved exactly for "arithmetic" and "eventual" |
| Platform.UnmappedRefused | scripts/gen_platform_pkg.py:26-34 | an access that no region holds whole, or of no bytes, has no rights |
| Platform.MatchMeans | scripts/gen_platform_pkg.py:26-33 | the 65-bit comparison holds exactly when every byte lies in the region |
| AxiDecode.PlatformExits | litex_wrapper/o3/axi_router.py:29-47 | an accepted description with the named regions gives well-formed exits |
| AxiDecode.SpanIsExact | litex_wrapper/o3/axi_router.py:32-37 | the 33-bit address of the last byte neither wraps nor differs from the plain sum |
| AxiDecode.BurstIsInterval | litex_wrapper/o3/axi_router.py:36-37 | the bytes of an incrementing burst are an interval (section A3.4 of ARM IHI 0022) |
| AxiDecode.HitsExact | litex_wrapper/o3/axi_router.py:38-42 | the exact condition under which a burst hits a region |
| AxiDecode.AlignedHitsExact | litex_wrapper/o3/axi_router.py:38-42 | an aligned burst hits exactly when permitted, incrementing and wholly inside |
| AxiDecode.UnalignedRefused | litex_wrapper/o3/axi_router.py:38-42 | an unaligned burst that is refused although all its bytes are inside |
| AxiDecode.ChosenInside | litex_wrapper/o3/axi_router.py:32-47 | an exit is chosen only if every byte of the burst lies in one permitted region behind it, below 2^32 |
| AxiDecode.ExitExact | litex_wrapper/o3/axi_router.py:32-47 | an aligned incrementing burst no wider than the bus goes to an exit exactly when a permitted region behind it contains every byte it touches, and to neither exactly when none does |
| AxiDecode.OthersRefused | litex_wrapper/o3/axi_router.py:38-42 | bursts of another kind or wider than the bus go to neither |
| AxiDecode.NeverBoth | litex_wrapper/o3/axi_router.py:43-47 | no burst hits regions behind both exits |
| AxiReads.ReadsAnswered | litex_wrapper/o3/axi_router.py:65-85 | over every run: each accepted address gets exactly len + 1 beats with its identifier, last on the final one alone, from the exit it chose or as decode errors |
| AxiReads.ReadsReach | litex_wrapper/o3/axi_router.py:65-85 | over every run: an aligned burst no wider than the bus is seen by an exit exactly when a permitted region behind it contains every touched byte, with the very beats the master saw |
| AxiReads.OneAtATime | litex_wrapper/o3/axi_router.py:3-7 | no address is taken while beats are outstanding, and no beat given while none are |
| AxiReads.ReadProgress | litex_wrapper/o3/axi_router.py:78-85 | an open read moves on in every cycle in which the master takes a beat and there is one |
| AxiReads.ErrorLasts | litex_wrapper/o3/axi_router.py:82-85 | a refused read needs nothing but the master's readiness, len + 1 times |
| AxiReads.OffersStay | litex_wrapper/o3/axi_router.py:65-85 | nothing offered is withdrawn while its side holds it |
| AxiReads.EveryRun | litex_wrapper/o3/axi_router.py:65-85 | the registers and the three ports' transactions stay in step |
| AxiWrites.WritesServed | litex_wrapper/o3/axi_router.py:87-112 | over every run: each accepted address gives all its data to one place and gets exactly one reply, after them |
| AxiWrites.WritesReach | litex_wrapper/o3/axi_router.py:87-112 | the same of writes, their data and their reply |
| AxiWrites.NoStrayData | litex_wrapper/o3/axi_router.py:100-112 | no data before an address or after the last beat, no reply before it, no address before the reply |
| AxiWrites.WriteProgress | litex_wrapper/o3/axi_router.py:100-112 | an open write moves on whenever the master and the place it goes to let it |
| AxiWrites.OffersStay | litex_wrapper/o3/axi_router.py:87-112 | nothing offered is withdrawn while its side holds it |
| AxiWrites.EveryRun | litex_wrapper/o3/axi_router.py:87-112 | the registers and the three ports' transactions stay in step |
| AxiRouter.Router.Clock | litex_wrapper/o3/axi_router.py:51-112 | one clock of the registers is the step of both sides |
| AxiRouter.Router.Read | litex_wrapper/o3/axi_router.py:65-85 | the read state machine |
| AxiRouter.Router.Write | litex_wrapper/o3/axi_router.py:87-112 | the write state machine |

## Left out

- The hardware itself, and the cocotb code that drives and samples it: only the reference models, the router and the platform description are modelled.
- `sim/cocotb/l2_home/mem_agents.py`: AXI memory timing, random backpressure, latency queues, credits of more than one line per port, stall stability and the directory dump checks; they do not touch permissions, golden data or history.
- The benches of the caches and of the whole system repeat the permission machine with more wiring.
- Distribution, template weights and metadata counters of the random generator: every choice is arbitrary.
- Arithmetic results of the random programs other than ADDI, the effect of illegal CSR addresses, interrupts and virtual memory: generated programs do not depend on them.
- Coherence.ReachableStates: leaves out the stores, evictions and grants after which its conclusion fails, by the exact conditions above; each kind has a reachable witness.
- Sv39.Tables.Map: other root tables than the default one, and mappings that overlap another page at a different level, which would cut off or reuse its tables; table addresses stay below 2^56, where an entry can name them.
- Ras.RasModel.Step: a checkpoint names a slot of the ring and a count up to its depth, as every checkpoint taken from a ring does.
- RasRuns.RecoveryByHeights: runs without recoveries, and addresses that are not yet on the stack, since a write of an address over itself cannot be seen; RasRuns.RecoveryByWrites has neither restriction. Neither covers a reset, which clears the ring.
- ReturnRuns.AssertionNeverFires: assumes that the requester hands out identifiers in turn; the queue itself does not check it.
- IfuF1.PathSound: assumes contiguous items of two or four bytes, an exit not before the first of them, and a next address equal to the predicted target, as the predictor supplies them; without contiguity the items themselves are no path.
- AxiDecode.ExitExact: bursts whose address is aligned to their width; AxiDecode.HitsExact is exact for all others, some of which are refused although every byte is inside.
- AxiReads.ReadsAnswered: assumes exits that obey AXI, offering beats only for an accepted and unanswered address, with its identifier and the last one marked.
- AxiWrites.WritesServed: assumes the same of replies, and a master that marks the last data beat of each burst.
- Platform.LoadPlatform: parsing of JSON and number strings, and missing keys, which raise before any check.
- `check_soc_regions`, the boot ROM stand-in and interrupt map of the platform, and the text around the generated lookup.
- The training write transport model of the TAGE test, and the readiness output of the reference.
- The in-flight indicator outputs of the router, which repeat its states.
- Widths of addresses, data and identifiers on the bus other than the 32 address bits: identifiers and data are passed on unchanged.
