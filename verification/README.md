# Replay, tracing and attack analysis: a verified model

Erebus-redgiant replays Ethereum transactions on a lazily forked state, traces them, and analyses the
traces: which values a transaction takes from a variable it shares with another one, what it defines and
uses, what everybody gains by it, where two executions of it part ways. This project models that logic in
Dafny and proves what it is meant to guarantee, over every input, every run and every tree of calls.

`dafny verify dfyconfig.toml` checks everything.

## Parts

**Taint engine.** `FlowNodes`, `ShadowMemory`, `Evm`, `DataFlow`, `TaintSteps`,
`TaintSoundness`, `TaintExactness`. A concrete single-frame
EVM over bytes runs beside the tracer's mirror stack, word-granular memory and storage. Arithmetic, hashing
and the environment are parameters, so the statements hold for all of them. `TaintSound` compares two runs
of the same code from states that differ only at the shared variable. As long as memory offsets and
lengths, SSTORE keys and block numbers carry no taint, they execute the same instructions and agree on
every stack slot, byte, slot and balance without a node, until a tainted jump is reported.
`TaintSoundTogether` goes on past reported jumps: as long as both runs execute the same program counters,
they still agree on everything without a node. The node handed to new nodes while the path diverges is
arbitrary there (any reported jump, or none, at every operation), so this covers every way the divergence
automaton may act. `StepSoundExactly` shows that the conditions are exact: over any mirror stack an instruction keeps all agreeing states in agreement if and only if no watched
operand is tainted. `TaintSteps` says what one operation taints and what it leaves alone, both ways, and which
nodes its own node flows from; a log that carries different things in the two runs is reported
(`LogDifferenceIsReported`).

**Lazy fork.** `LazyFork`, `ForkedStates`, `ForkRuns`, `Existence`. The state that pulls accounts and slots from a remote
chain on first use refines an eager copy with a stack of saved worlds, through real heap objects: a
snapshot is a copy that shares the earlier snapshots, and a revert adopts the snapshot's own objects.

**Call summaries.** `Profits`, `ProfitLists`, `Transfers`, `StateVars`, `CallSummaries`, `SummarySteps`, `SummaryTracers`,
`SummaryExact`, `SummaryUses`, `SummaryBalances`, `SummaryTransfers`, `SummaryProfits`, `SummaryTokens`. The summary tracer runs beside a machine that executes the
events with reverts. The folds over segments and nested calls are proved to be the storage diff, the Ether
balance diff with what was reported but not paid, the reads before the first write, and the log of transfers,
for any tree of calls and any failures; for ERC721 tokens and for listed balances what the folds keep and what
they lose.

**Nested call tracer.** `CallPositions`, `BasicBlocks`, `NestedCalls`, `TracerRuns`, `CompactPositions`. Positions, the tree of
calls, basic blocks by segment, and the search for a call by its position.

**Attack analysis.** `PathAlignment`, `InfluenceTrace`, `DivergenceAutomaton`. Aligning two paths, searching
back from a sink to a source, and following a reference path.

**Search.** `TxHistories`, `Windows`. The happens-before graph, prerequisites of a transaction, and sliding
windows that check every pair and triple exactly once.

Methods that loop or update state are proved equal to a specification function; the lemmas speak about
that function, one step first and whole runs then.

## Where the code does not do what one may expect

- Copies of call data and return data lose taint exactly when `CopyOk` fails: the two areas are out of step
  within a word and cross a word boundary, or the copy clears a whole word of which it overwrites only a
  part (`CopySoundExactly`). Recording an argument area loses taint exactly when it is not word-aligned and
  crosses a word boundary (`TakeSoundExactly`).
- The engine does not follow taint through the operands that say where an instruction works: memory offsets
  and lengths (MLOAD, MSTORE, MSTORE8, KECCAK256, LOG), the key of an SSTORE, the operand of BLOCKHASH. One
  tainted operand of these is enough for two agreeing states to part (`StepSoundExactly`), and real runs do:
  after PUSH 0; SLOAD; MLOAD; MSIZE; JUMP two runs come to different program counters in every world with no
  tainted jump to report (`TaintedOffsetDivergesUnreported`, and the three `...LosesTaint` lemmas beside it).
- `ForkedState.RevertToSnapshot` adopts the snapshot's objects. If the snapshot is shared with a copy, the
  copy sees later writes (`SharedRevertShowsInCopy`). A copy and its original stay apart as long as neither
  reverts to a snapshot they share (`RunBoth`).
- The summary tracer's map of definitions is not rolled back when a call fails. So a slot first stored to
  in a failing call and read afterwards is no use, though the read sees the value from before
  (`FailedStoreHidesUse`). `UsesAgainstExposed` says exactly which upward-exposed reads are missing.
- `Profits.Compact` documents that it merges, but throws the merged list away; it only drops zero entries.
  An ERC721 profit counts as zero when as many tokens were received as given, so two accounts that swap tokens
  of one contract have no profit at all (`SwapIsDropped`). A call hands on how an account stands to a token
  exactly if it stands to none or these numbers differ (`CallStandsExactly`). A token received twice in a row
  counts once (`RepeatCountsOnce`), and by just such repeats the numbers of tokens fall short of what the
  transfers move (`OverallQuantitiesExact`).
- `CaptureEnter` files an Ether transfer for the value of every call, of a CALLCODE too, whose value is only
  reported. So the Ether profits are the balance diff and the unpaid values (`OverallEtherExact`), and a
  CALLCODE with a value shows as a loss of its caller (`UnpaidShowsAsLoss`).
- A payment defines the balances of both accounts by amounts worked out from the state before it, the payer's
  last, whether or not the engine makes it. So the overall definitions are the balance diff of an account if and
  only if the last payment from or to it that survived was made, and between two accounts, or was the
  transaction's own (`OverallBalancesExact`). An account that pays itself is listed with less than it has
  (`PaysItself`).
- At the end of a transaction the sender's balance is filed as used with the value taken off, though it has left
  the balance by then: unless somebody has read or paid that balance before, the amount listed is not the one from
  before the transaction but twice the value below it, once if he pays himself (`SettlementUseIsOff`,
  `BalanceUsesExact`).
- The transaction's own payment happens before its calls but is the last of the overall transfers
  (`OverallTransfersExact`).
- `ForkedState.Exist` looks at the objects there are, and reading a non-zero slot makes one. So an account that
  is empty remotely exists once such a slot has been read (`ReadMakesExist`, `ExistExactly`).
- `Add` merges a profit into a `ZeroProfit` that comes first, and then lists its asset twice if it is listed
  further on. `AddOneListsTwice` says exactly when; `Cmp` is the one caller that makes a `ZeroProfit`, in a list
  of nothing else.
- `Profits.Cmp` may answer "not comparable" though one list is ahead (`AheadButNotComparable`). `OrderMeans`
  says exactly when it answers what.
- `position.Cmp` documents its signs the other way round; the code answers -1 for the earlier position.
- A calling opcode that is a basic block of its own is filed in the segment after the call. Segments hold
  exactly what was executed between the nested calls if and only if no calling opcode comes straight after
  another tail opcode or as the first of its call (`SegmentsExact`, `SegmentsExactByOpcode`); a CALL after a
  JUMPI is such a run (`LoneCallMisfiled`).
- A location that fails before it executes is recorded only if a block is under way (`FaultRecords`), so not
  right after a jump (`FaultAfterJumpIsLost`).
- In the path alignment a reverting block drops the profits accumulated before its stretch, not those its
  own stretch has collected by then (`FeedNet`).
- If several blocks ahead on the reference path have the same head, the divergence automaton merges at the
  last of them (`MergeBlocksAhead`). A run that diverges at the end of the reference path never comes back
  (`PastTheEnd`); from anywhere else it can (`MergesAgainExactly`).
- A block that falls through into a JUMPDEST calls no tail hook, and the automaton then waits for it. A run
  through exactly the blocks of the reference path diverges if such a block comes before one that ends in a
  tail opcode, and only then (`FallThroughExactly`, `FallThroughDiverges`).

## Model

| member | source | states |
|---|---|---|
| ShadowMemory.Memory.Load | analysis/data_flow/memory.go:25-37 | the nodes returned are the tainted nodes of exactly the words that share a byte with the range, and none for an empty range |
| ShadowMemory.Memory.Store | analysis/data_flow/memory.go:39-57 | words wholly inside the range get the value; words only partly inside keep the node they had, take the value if they had none, or get a node of both |
| ShadowMemory.Memory.Clear | analysis/data_flow/memory.go:59-61 | whole words of the range lose their taint, words only partly inside keep it |
| ShadowMemory.Memory.StoreCallData | analysis/data_flow/memory.go:84-103 | every destination word takes the source word the loop pairs it with; words past the loop's end are left |
| ShadowMemory.Memory.StoreCallReturnData | analysis/data_flow/memory.go:105-124 | the same for return data |
| ShadowMemory.Call.StoreData | analysis/data_flow/call.go:35-43 | the words of the argument area are recorded from word 0 on |
| ShadowMemory.Call.StoreReturnData | analysis/data_flow/call.go:45-53 | the words of the return area are recorded from word 0 on |
| ShadowMemory.Call.GetData | analysis/data_flow/call.go:55-70 | a read yields the tainted nodes it touches; if there are none, the call's own source, and nothing for an empty range |
| ShadowMemory.Call.GetReturnData | analysis/data_flow/call.go:86-101 | the same for return data |
| ShadowMemory.StoreCovers | analysis/data_flow/memory.go:39-61 | after any store or clear every byte that is tainted lies in a tainted word |
| ShadowMemory.StoreCarriesBoth | analysis/data_flow/memory.go:39-57 | a word a store touches carries the stored node, and what it held as well unless it is overwritten whole; other words are as before |
| ShadowMemory.StoreExact | analysis/data_flow/memory.go:39-61 | word-aligned stores and clears keep words tainted exactly where bytes are |
| ShadowMemory.LoadSeesTaint | analysis/data_flow/memory.go:25-37 | a load that touches a tainted byte is tainted |
| ShadowMemory.LoadExact | analysis/data_flow/memory.go:25-37 | a word-aligned load is tainted if and only if it touches a tainted byte |
| ShadowMemory.CopySoundExactly | analysis/data_flow/memory.go:84-124 | a copy keeps all byte taint, for every memory and data, if and only if the areas are congruent (or each fits one word) and no whole word is cleared that the data does not fill |
| ShadowMemory.CopyCovers | analysis/data_flow/memory.go:84-124 | under that condition the destination words cover the copied and the kept tainted bytes |
| ShadowMemory.ShortCopyLosesTaint | analysis/data_flow/memory.go:105-124 | a callee returning less than asked for makes the copy clear the taint of bytes it did not overwrite |
| ShadowMemory.MisalignedCopyLosesTaint | analysis/data_flow/memory.go:84-103 | incongruent areas lose the taint of the first byte past a word boundary |
| ShadowMemory.TakeSoundExactly | analysis/data_flow/call.go:35-53 | recording an area keeps all byte taint if and only if it is word-aligned or fits one word |
| ShadowMemory.ArgumentReachesLoad | analysis/data_flow/call.go:35-70 | a byte tainted in the caller's memory taints every read of call data that touches it |
| ShadowMemory.ArgumentReachesMemory | analysis/data_flow/memory.go:84-103 | recording an argument area and copying it into the callee's memory covers every byte tainted in the caller's |
| ShadowMemory.HistoryCovers | analysis/data_flow/memory.go:39-124 | after any history of stores, clears and sound copies the words cover the tainted bytes |
| FlowNodes.RootedReachesSource | analysis/data_flow/value.go:115-134 | from a node whose upstream ends at sources only, a chain of From edges leads to a source |
| DataFlow.Stack.Push | analysis/data_flow/stack.go:22-29 | appends the elements on top |
| DataFlow.Stack.PopN | analysis/data_flow/stack.go:31-42 | takes off the top n, in stack order |
| DataFlow.Stack.Swap | analysis/data_flow/stack.go:58-66 | exchanges the top with the element at the position and leaves the rest |
| DataFlow.Storage.Store | analysis/data_flow/storage.go:19-21 | sets the node of one key and leaves the rest |
| DataFlow.DataFlowTracer.FlowToStack | analysis/data_flow/policy.go:254-272 | an untainted operand list gives no node unless the operation is a source; else a node of exactly the tainted operands, and of the control node while diverging |
| DataFlow.DataFlowTracer.StoreFlow | analysis/data_flow/policy.go:587-619 | MSTORE and MSTORE8 write the operand's node over 32 bytes or 1, and a fresh one if the operation is a source and the operand has none |
| DataFlow.DataFlowTracer.WriteFlow | analysis/data_flow/policy.go:643-665 | SSTORE marks the written slot when key or value is tainted or the operation is a source, and clears it otherwise |
| DataFlow.DataFlowTracer.SinkFlow | analysis/data_flow/policy.go:667-700 | a jump is passed to the analyzer if and only if its operands are tainted |
| DataFlow.DataFlowTracer.CheckOperation | dataset/taint_analysis.go:106-137 | an operation is a source when it loads the shared variable, which is then recorded, or while the path diverges; jumps, logs and halts are sinks |
| DataFlow.DataFlowTracer.SinkTainted | dataset/taint_analysis.go:139-153 | tainted jumps and logs are filed under their operation |
| DataFlow.DataFlowTracer.Policy | analysis/data_flow/policy.go:190-292 | every modelled operation moves stack, memory, storage and reports as one shadow step says |
| DataFlow.DataFlowTracer.CaptureState | analysis/data_flow/tracer.go:64-124 | with result pushes deferred to the next event, the mirrored state still takes exactly one shadow step per operation |
| TaintSteps.TaintedJumpIsReported | analysis/data_flow/policy.go:667-700 | a jump is recorded if and only if its target or condition is tainted |
| TaintSteps.TaintedLogIsReported | analysis/data_flow/policy.go:234-252 | a log is recorded if and only if a topic or the word of a byte it logs is tainted |
| TaintSteps.ResultTaintedExactly | analysis/data_flow/policy.go:254-292 | while the run is on the path, a result is tainted if and only if it is computed from something tainted or loads the shared variable; while it diverges, always |
| TaintSteps.MemoryTaintedExactly | analysis/data_flow/policy.go:587-619 | a word of memory is tainted after a step if and only if the step writes taint to it or it was tainted and is not overwritten whole |
| TaintSteps.StorageTaintedExactly | analysis/data_flow/policy.go:643-665 | a slot is tainted after a step if and only if it is written with a tainted key or value, or while diverging, or was tainted and is not written |
| TaintSteps.ResultFlowsFrom | analysis/data_flow/policy.go:254-292 | the node of a tainted result flows from all the tainted nodes it is computed from and the diverging node, and from no others |
| TaintSteps.SlotFlowsFrom | analysis/data_flow/policy.go:643-665 | so does the node of a slot written, from key and value |
| TaintSteps.ReportFlowsFrom | analysis/data_flow/policy.go:234-252 | so does the node a jump or a log is reported with, from its operands and the bytes it logs |
| TaintSoundness.SourcesExactly | dataset/taint_analysis.go:173-198 | an operation is recorded as a source if and only if another value of the shared variable alone can change what it pushes |
| TaintSoundness.LogAgreesOrReported | analysis/data_flow/policy.go:234-252 | when two agreeing runs come to a log and its topics or bytes differ, it is reported |
| TaintSoundness.LogDifferenceIsReported | dataset/taint_analysis.go:139-153 | from starts that differ only at the shared variable, over the same program counters, a log that carries different things in the two runs is reported |
| TaintSoundness.LogStaysReported | dataset/taint_analysis.go:139-153 | and stays reported for the rest of the run |
| TaintSoundness.StepAgrees | analysis/data_flow/policy.go:190-292 | from states that agree on all that is untainted, one step of both runs keeps agreement and halts both or neither, unless an address or the jump is tainted |
| TaintSoundness.RunsAgree | analysis/data_flow/tracer.go:64-124 | the same over runs of any length, instruction sequences included |
| TaintSoundness.TaintSound | dataset/taint_analysis.go:106-153 | two runs that differ only at the shared variable execute the same program counters and agree on everything without a node until a tainted jump is reported |
| TaintSoundness.DivergenceIsReported | dataset/taint_analysis.go:139-153 | if the runs part ways, the traced one has come to a tainted jump before |
| TaintSoundness.TaintSoundTogether | dataset/taint_analysis.go:92-153 | past any reported jumps, whatever control node new nodes have got: two runs that differ only at the shared variable and execute the same program counters agree on everything without a node |
| TaintSoundness.Trace | analysis/data_flow/tracer.go:64-124 | the tracer object fed with a run holds the mirrored state TaintSound speaks of |
| TaintSoundness.StepRooted | dataset/taint_analysis.go:92-104 | every operation keeps all nodes, control edges included, rooted in recorded sources |
| TaintSoundness.RunRooted | dataset/taint_analysis.go:92-137 | so does every run |
| TaintSoundness.ReportedJumpReachesSource | dataset/taint_analysis.go:92-153 | from every reported jump a chain of From edges leads to a load of the shared variable |
| TaintExactness.StepSoundExactly | analysis/data_flow/policy.go:190-700 | for every instruction and mirror stack: one step keeps all agreeing states in agreement and halts both or neither, if and only if no address operand is tainted and it is no tainted jump |
| TaintExactness.HashOfTaintedLengthLosesTaint | analysis/data_flow/policy.go:274-292 | from starts that differ at the shared slot only, a run with a tainted KECCAK256 length ends in an untainted value that differs, with nothing reported |
| TaintExactness.TaintedOffsetDivergesUnreported | analysis/data_flow/policy.go:565-585 | a tainted MLOAD offset leads two runs to different program counters through an untainted jump, in every world, with nothing reported |
| TaintExactness.BlockHashLosesTaint | analysis/data_flow/policy.go:74 | the same for a tainted BLOCKHASH operand, for any two values whose block hashes differ |
| TaintExactness.TaintedKeyLosesTaint | analysis/data_flow/policy.go:643-665 | a run with a tainted SSTORE key leaves a slot without a node that differs, with nothing reported |
| LazyFork.InheritAccountUnseen | dyengine/state/forked.go:464-504 | pulling in an account changes no account, slot or committed value anybody can read |
| LazyFork.InheritSlotUnseen | dyengine/state/forked.go:511-541 | pulling in a slot changes nothing anybody can read |
| LazyFork.WriteSlotIsUpdate | dyengine/state/forked.go:218-234 | SetState changes one slot and leaves its committed value, zero writes included |
| LazyFork.WriteAccountIsUpdate | dyengine/state/forked.go:97-159 | the account setters change one account and nothing else |
| LazyFork.FinaliseCommits | dyengine/state/forked.go:440-454 | Finalise makes every committed value the current one, slots cleared to zero included |
| LazyFork.UpdateRefines | dyengine/state/forked.go:97-234 | every operation on the live store, reads included, moves what it means as it moves an eager copy |
| LazyFork.ObsRefines | dyengine/state/forked.go:113-266 | every getter but Exist answers what an eager copy answers, GetCommittedState the value as of the last Finalise, Empty included |
| LazyFork.LazyRefinesEager | dyengine/state/forked.go:97-454 | one operation of any kind keeps coherence, refines the eager step and gives the same answer |
| ForkedStates.CommitCleared | dyengine/state/forked.go:440-454 | in whatever order the entries come, each dirty flag sets or deletes the committed one and the others stay |
| ForkedStates.ForkedState.InheritAccountState | dyengine/state/forked.go:464-504 | first use copies balance, code and nonce unless all are empty, and resets the address's storage bookkeeping |
| ForkedStates.ForkedState.InheritAccountStorage | dyengine/state/forked.go:511-541 | first use of a slot copies its remote value unless it is zero |
| ForkedStates.ForkedState.GetBalance | dyengine/state/forked.go:113-119 | inherits, then answers from the StateDB |
| ForkedStates.ForkedState.Exist | dyengine/state/forked.go:252-258 | inherits, then answers by the objects there are |
| ForkedStates.ForkedState.Empty | dyengine/state/forked.go:260-266 | inherits, then answers whether balance, nonce and code are all empty |
| ForkedStates.ForkedState.GetState | dyengine/state/forked.go:206-216 | inherits account and slot, then answers from the StateDB |
| ForkedStates.ForkedState.GetCommittedState | dyengine/state/forked.go:169-204 | zero is answered for a slot cleared by an earlier Finalise, the remote value for one never committed |
| ForkedStates.ForkedState.SetState | dyengine/state/forked.go:218-234 | inherits, writes, and flags whether the slot is cleared; the flag map it assigns to has been made |
| ForkedStates.ForkedState.Finalise | dyengine/state/forked.go:440-454 | commits dirty storage and cleared flags |
| ForkedStates.ForkedState.Copy | dyengine/state/forked.go:339-410 | a new object with its own storage, the same content, and the very same snapshot objects |
| ForkedStates.ForkedState.Snapshot | dyengine/state/forked.go:418-423 | the id is the number of snapshots so far; the new snapshot shares exactly those, and the i-th always holds the first i |
| ForkedStates.ForkedState.RevertToSnapshot | dyengine/state/forked.go:426-438 | adopts the snapshot's own storage object and its snapshots, and keeps the snapshot discipline |
| ForkedStates.ForkedState.Apply | dyengine/state/forked.go:97-454 | any operation does what the lazy machine does, answers the same, and brings in no storage but its own and new |
| ForkedStates.ForkedState.ApplyApart | dyengine/state/forked.go:333-438 | an operation on one of two states apart leaves the other and its snapshots unchanged |
| ForkedStates.ForkedState.CopyApart | dyengine/state/forked.go:339-410 | a fresh copy is apart from its original from the shared snapshots on |
| ForkedStates.ForkedState.SharedRevertShowsInCopy | dyengine/state/forked.go:426-438 | as long as a copy still shares a snapshot, whatever either has snapshotted since, a revert to it and a write by the original change what the copy would revert to |
| ForkRuns.SavedKept | dyengine/state/forked.go:418-438 | operations that revert to no snapshot below an id leave those saved worlds alone |
| ForkRuns.RevertRestores | dyengine/state/forked.go:418-438 | in the eager machine, reverting to an id restores every account, slot, committed value and earlier snapshot held when it was issued, whatever ran in between |
| ForkRuns.Run | dyengine/state/forked.go:97-454 | any interleaving of reads, writes, snapshots, reverts and Finalise answers what an eager copy answers |
| ForkRuns.SnapshotAndRevert | dyengine/state/forked.go:418-438 | on the object itself: after Snapshot, any operations that do not drop it, and RevertToSnapshot, everything readable and every earlier snapshot is as before |
| ForkRuns.RunBoth | dyengine/state/forked.go:339-438 | a copy and its original, run in any interleaving, each answer and end as if the other had never run, as long as neither reverts to a shared snapshot |
| Existence.ExistExactly | dyengine/state/forked.go:252-258 | after any interleaving of operations Exist agrees with an eager copy unless the account does not exist there and a non-zero slot of it has been read |
| Existence.ReadMakesExist | dyengine/state/forked.go:511-541 | reading a non-zero slot of an account that is empty remotely makes Exist answer otherwise |
| Profits.MergeERC721 | analysis/summary/profit.go:597-628 | a token received cancels one given and the other way round; a repeated one changes nothing |
| Profits.MergeTokensAddsStandings | analysis/summary/profit.go:597-628 | merging adds up how the account stands to every token, between given and received once |
| Profits.Add | analysis/summary/profit.go:102-124 | each new profit is merged into the first one that takes it, or appended |
| Profits.AddNet | analysis/summary/profit.go:102-124 | Add adds net quantities, for every fungible asset and account |
| Profits.AddProper | analysis/summary/profit.go:102-124 | Add never lists an asset of an account twice if none was before |
| ProfitLists.AddOneListsTwice | analysis/summary/profit.go:102-124 | for every list and profit: an asset is listed more than once afterwards if and only if it was before, or it is the one added and stood once behind a ZeroProfit |
| ProfitLists.AddStands | analysis/summary/profit.go:102-124 | adding a whole list adds up how an account stands to every ERC721 token, profit by profit, between given and received once |
| ProfitLists.NonZeroStands | analysis/summary/profit.go:648-650 | Compact drops all standings to the tokens of a contract of which as many were received as given, and no others |
| Profits.Compact | analysis/summary/profit.go:84-94 | keeps exactly the non-zero entries, in order; the merge it makes is not in the result |
| Profits.NonZeroNet | analysis/summary/profit.go:84-94 | Compact changes no net quantity |
| Profits.ProfitsOfIsShare | analysis/summary/profit.go:258-266 | ProfitsOf keeps the account's net quantity of every fungible asset and nobody else's |
| Profits.EtherProfitOf | analysis/summary/profit.go:268-280 | the amount is the account's net Ether over the whole list |
| Profits.InnerCmp | analysis/summary/profit.go:151-180 | folds each profit's comparison with the first comparable one, or with nothing; opposite signs are an error |
| Profits.Cmp | analysis/summary/profit.go:141-194 | compares the compacted lists both ways, and answers only if both agree |
| Profits.OrderAntisymmetric | analysis/summary/profit.go:141-194 | one way round it answers r if and only if the other way round it answers -r |
| Profits.OrderMeans | analysis/summary/profit.go:126-194 | on lists without duplicates it answers r exactly if no asset differs the other way and each list that holds anything holds an asset that shows the difference |
| Profits.AheadButNotComparable | analysis/summary/profit.go:126-194 | a list that is ahead by an asset the other one lacks, and level otherwise, is reported as not comparable |
| Transfers.MergeKeepsBalances | analysis/summary/transfer.go:95-173 | whatever accounts coincide, a merge keeps every account's net change, moves no more in all, gives at most two transfers, and none that is void unless one was |
| Transfers.MergePossible | analysis/summary/transfer.go:95-173 | a merge succeeds if and only if one transfer starts where the other ends or both run the same way, in either order |
| Transfers.ProfitsAreMoved | analysis/summary/transfer.go:194-610 | the profits of a transfer are what it takes from one holding and adds to another, nobody holding for the zero address of a token |
| Transfers.MergeKeepsHoldings | analysis/summary/transfer.go:231-653 | merging two transfers of any kind changes no holding of anybody |
| Transfers.Merge | analysis/summary/transfer.go:231-653 | transfers of one asset are merged by account, tokens by chaining their moves; other pairs are an error |
| StateVars.AddWithOverride | analysis/summary/state.go:62-76 | replaces the same variable in place or appends |
| StateVars.OverrideAllLookup | analysis/summary/state.go:62-76 | after adding, a variable is its last definition, else what it was; none is listed twice |
| StateVars.AddIfAbsent | analysis/summary/state.go:78-91 | appends what is not there |
| StateVars.IfAbsentAllLookup | analysis/summary/state.go:78-91 | after adding, a variable is what it was, else its first use; none is listed twice |
| StateVars.IntersectWith | analysis/summary/state.go:48-60 | the pairs returned are all the pairs of variables that are the same |
| CallSummaries.ChangedLookup | analysis/summary/summary.go:214-246 | clearing keeps a definition if and only if it differs from the state before |
| CallSummaries.CallSummary.OverallDefs | analysis/summary/summary.go:187-249 | cached or not, the result is the fold over segments and nested calls in turn, failed ones left out, unchanged ones cleared at the root |
| CallSummaries.CallSummary.OverallUses | analysis/summary/summary.go:253-278 | the fold of uses, failed calls included |
| CallSummaries.CallSummary.OverallProfits | analysis/summary/summary.go:280-310 | the fold of profits, compacted call by call, failed calls left out |
| CallSummaries.CallSummary.OverallTransfers | analysis/summary/summary.go:312-341 | cached or not, the transfers of segments and nested calls in turn, of calls that did not fail |
| SummaryTracers.TxSummaryTracer.CaptureState | analysis/summary/summary_tracer.go:68-239 | definitions go to the current segment and the map of all definitions; uses only if no definition came before, CODESIZE always; logs add transfers and their profits |
| SummaryTracers.TxSummaryTracer.CaptureEnter | analysis/summary/summary_tracer.go:241-290 | the caller gets its next segment, the nested call its first, with the balances, transfer and profits of the value sent |
| SummaryTracers.TxSummaryTracer.CaptureExit | analysis/summary/summary_tracer.go:292-304 | a failed call loses what its last segment changed, keeps its uses, and joins its caller's nested calls |
| SummaryTracers.TxSummaryTracer.TransactionEnd | analysis/summary/summary_tracer.go:322-394 | the value of the transaction itself is filed at its end, unless it failed |
| SummaryExact.StepTracks | analysis/summary/summary_tracer.go:68-304 | every event keeps each open call's summary leading from the state the call started in to the state the next one started in, slot by slot and balance by balance |
| SummaryExact.OverallDefsExact | analysis/summary/summary.go:187-249 | for any tree of calls with any failures, a slot is listed with value v if and only if v is its value after the transaction and differs from the one before |
| SummaryExact.OverallEtherExact | analysis/summary/summary.go:280-310 | the overall Ether profit of every account is its balance after the transaction less the one before, plus what values reported but not paid by surviving calls would have moved; so the balance diff if and only if that is nothing |
| SummaryExact.UnpaidShowsAsLoss | analysis/summary/summary_tracer.go:241-290 | a CALLCODE with a value leaves the balance of its caller alone and lists it with a loss |
| SummaryTransfers.OverallTransfersExact | analysis/summary/summary.go:312-341 | the overall transfers are the log of transfers in the order they happened, rolled back with every failing call, and then the transaction's own payment; none if it failed |
| SummaryUses.StepSeen | analysis/summary/summary_tracer.go:96-111 | an event adds a slot to the uses only if it is an SLOAD no definition came before |
| SummaryUses.OverallUsesExact | analysis/summary/summary.go:253-278 | a slot is used if and only if its first access, in failing calls too, is an SLOAD; once, with the value from before the transaction |
| SummaryUses.UsesAgainstExposed | analysis/summary/summary_tracer.go:96-111 | uses are upward-exposed reads; an upward-exposed slot is used if and only if it was not first stored to, and always if no call fails |
| SummaryUses.RunClean | analysis/summary/summary_tracer.go:96-111 | an upward-exposed read reads the value from before the transaction |
| SummaryUses.FailedStoreHidesUse | analysis/summary/summary_tracer.go:92-111 | a store in a failing call hides a later upward-exposed read |
| SummaryBalances.PaymentDefinesExactly | analysis/summary/summary_tracer.go:250-268 | the balance a payment defines is the one the account has then if and only if the engine makes the payment, and between two accounts |
| SummaryBalances.SettlementDefines | analysis/summary/summary_tracer.go:352-372 | sender and receiver of a transaction's value are defined with the balance they have after it |
| SummaryBalances.OverallBalancesExact | analysis/summary/summary.go:215-253 | for any tree and failures, the overall definitions give an account its balance after the transaction if and only if its last surviving payment was made, and between two accounts, or was the transaction's own, or there was none |
| SummaryBalances.PaysItself | analysis/summary/summary_tracer.go:250-268 | an account that pays itself is listed with a balance it does not have |
| SummaryBalances.BalanceUsesExact | analysis/summary/summary.go:257-285 | a balance is listed as used if and only if the first access to it is a read, then with what was read, or it is the sender's, untouched so far, then with what SettlementUseIsOff says |
| SummaryBalances.SettlementUseIsOff | analysis/summary/summary_tracer.go:343-356 | the use filed for an untouched sender is not his balance from before the transaction |
| SummaryProfits.OverallProfitsAreTransfers | analysis/summary/summary.go:280-341 | the overall profits are what the overall transfers move, for every fungible asset and account |
| SummaryTokens.CallStandsExactly | analysis/summary/summary.go:280-310 | for any tree of calls, a call hands on how an account stands to an ERC721 token if and only if it stands to none or the numbers of tokens received and given in the call differ |
| SummaryTokens.OverallStandsExactly | analysis/summary/summary.go:280-310 | the same of the summary of any transaction |
| SummaryTokens.OverallQuantitiesExact | analysis/summary/summary.go:280-341 | of every asset, ERC721 tokens included, the overall profits are what the overall transfers move less the tokens received again plus those given again, and equal if and only if these come to the same |
| SummaryTokens.SwapIsDropped | analysis/summary/profit.go:84-94 | two accounts swap tokens of one contract: both transfers are listed and no profit at all |
| SummaryTokens.RepeatCountsOnce | analysis/summary/profit.go:597-628 | a token logged as received twice in a row is one token of profit, though two were moved |
| SummaryProfits.EtherIsConserved | analysis/summary/summary.go:280-310 | over any tree of calls with any failures the Ether profits sum to zero |
| CallPositions.Cmp | dyengine/tracers/call_position.go:106-132 | dictionary order, -1 for the earlier position |
| CallPositions.AncestorOf | dyengine/tracers/call_position.go:88-94 | true if and only if the position is a proper prefix |
| CallPositions.ParentOf | dyengine/tracers/call_position.go:98-104 | true if and only if the other position adds one index |
| CallPositions.OrderTransitive | dyengine/tracers/call_position.go:106-132 | the order is transitive |
| CallPositions.OrderZero | dyengine/tracers/call_position.go:106-132 | only equal positions compare as equal |
| BasicBlocks.DataWithTrace.CaptureState | dyengine/tracers/nested.go:245-320 | a head closes the block under way and starts one, a tail ends it, anything else goes on with it |
| BasicBlocks.ExecuteBuilds | dyengine/tracers/nested.go:245-320 | neither panic is reachable, no finished block has a tail before its end or a JUMPDEST after its start, and the recorded locations grow by just the one executed |
| BasicBlocks.FaultRecords | dyengine/tracers/nested.go:245-320 | a failing location closes the block under way, and is recorded if and only if there is one |
| BasicBlocks.BuildRecords | dyengine/tracers/nested.go:198-328 | over any run of a call, finished blocks and the block under way are exactly the locations executed, in nested calls + 1 segments |
| BasicBlocks.SegmentsExact | dyengine/tracers/nested.go:322-328 | finished segments hold exactly what was executed between nested calls if and only if no nested call is entered with a block under way |
| BasicBlocks.SegmentsExactByOpcode | dyengine/tracers/nested.go:245-328 | with every nested call entered from a tail opcode, segments hold exactly what was executed between the calls if and only if no calling opcode is a block of its own |
| BasicBlocks.LoneCallMisfiled | dyengine/tracers/nested.go:245-328 | after JUMPI, CALL and the nested call, the first segment lacks the CALL |
| BasicBlocks.FaultAfterJumpIsLost | dyengine/tracers/nested.go:245-320 | a location failing right after a jump leaves no record |
| NestedCalls.AncestorsByPosition | dyengine/tracers/call_position.go:88-94 | one call is an ancestor of another if and only if its position is a proper prefix |
| NestedCalls.EnterTree | dyengine/tracers/nested.go:72-114 | entering keeps the tree: parents, children, positions and the stack of open calls |
| NestedCalls.ExitTree | dyengine/tracers/nested.go:116-124 | so does leaving, and the caller's next child comes after all calls so far |
| NestedCalls.Iterate | dyengine/tracers/msgcall.go:92-104 | although early stops are not passed up, the captured call is the one at the position if it lies below, else what it was |
| NestedCalls.FindMsgCall | dyengine/tracers/msgcall.go:106-116 | a call is found if and only if one has the position, and it is that one |
| TracerRuns.NeverPanics | dyengine/tracers/nested.go:245-320 | in every reachable state both panics are out of reach |
| TracerRuns.StepReached | dyengine/tracers/nested.go:56-124 | every event keeps the tree of calls and the blocks of every call |
| TracerRuns.RunOf | dyengine/tracers/nested.go:56-175 | after any sequence of possible events the tracer is in a reached state: the tree, the stack and every call's blocks are right |
| TracerRuns.PositionsByTime | dyengine/tracers/call_position.go:106-132 | in every reachable state positions are distinct and ordered by the time the calls were entered |
| TracerRuns.CallRecords | dyengine/tracers/nested.go:198-328 | every call has nested calls + 1 segments, and without a failure its blocks are exactly what it executed |
| TracerRuns.OperationsNumbered | dyengine/tracers/nested.go:56-70 | operations are numbered through over all calls |
| CompactPositions.CompactPositionIs | dyengine/tracers/msgcall.go:69-88 | in every run a call's compact position is its caller's, followed, unless it is to a precompiled contract, by how many of the calls its caller made before it were not |
| CompactPositions.CompactByTime | dyengine/tracers/call_position.go:20-22 | if precompiled contracts make no calls, compact positions tell the other calls apart and order them by time |
| TracerRuns.NestedCallTracer.CaptureState | dyengine/tracers/nested.go:56-70 | counts the operation and passes the location to the innermost call's blocks only |
| TracerRuns.NestedCallTracer.GenChildPosition | dyengine/tracers/msgcall.go:69-88 | the next child's position, and the compact one, which leaves precompiled contracts out |
| TracerRuns.NestedCallTracer.CaptureEnter | dyengine/tracers/nested.go:72-114 | links the new call below the innermost one, opens the caller's next segment and pushes the call |
| TracerRuns.NestedCallTracer.CaptureExit | dyengine/tracers/nested.go:116-124 | pops the innermost call and nothing else |
| PathAlignment.UpdateProfits | dataset/attack_analysis.go:545-589 | every block of both stretches is fed once, in order; reverts drop what was accumulated; what it records is in ScanDiffers |
| PathAlignment.FindMerge | dataset/attack_analysis.go:600-614 | the two inner loops find the pair NextMerge names |
| PathAlignment.NextMergeFirst | dataset/attack_analysis.go:600-614 | that pair is the earliest block of the first path with an equal one ahead in the second, and the earliest such |
| PathAlignment.LocateConsequencePoint | dataset/attack_analysis.go:528-626 | terminates on all pairs of paths, and returns what the scan does |
| PathAlignment.ScanContiguous | dataset/attack_analysis.go:591-625 | the stretches of the scan follow each other without gap in both paths, each of its kind |
| PathAlignment.ScanFeedsOnce | dataset/attack_analysis.go:591-625 | every block before the scan's end is fed to the profits exactly once, and none after it |
| PathAlignment.ScanMatches | dataset/attack_analysis.go:591-625 | the matched blocks are a common subsequence of the two paths |
| PathAlignment.ScanReports | dataset/attack_analysis.go:591-625 | a reported divergence point comes with all divergences the scan went through, in order |
| PathAlignment.ScanDiffers | dataset/attack_analysis.go:580-625 | without a divergence point the indices are, stretch by stretch and rising, the last block with profits in each path of exactly the stretches whose blocks earn differently |
| PathAlignment.EarnsDifferentlyMeans | dataset/attack_analysis.go:580 | that is so if and only if the two lists come to different quantities of some asset; for a fungible one these are the sums of what the blocks earn |
| PathAlignment.FeedNet | dataset/attack_analysis.go:545-589 | after a stretch each path holds what its blocks earned of every fungible asset, on top of what it held before unless a block of the stretch reverts |
| PathAlignment.SameProfitsMeans | dataset/attack_analysis.go:538-544 | the profits count as the same if and only if every account holds as much of every asset in both |
| PathAlignment.ScanDecides | dataset/attack_analysis.go:591-625 | the scan stops with a divergence point exactly after a diverging stretch with some profit or revert in it that merges again with different profits, or never merges |
| PathAlignment.DivergencesReported | dataset/attack_analysis.go:591-625 | if the first blocks match, every reported divergence is a pair of equal blocks with unequal successors, rising in both paths |
| InfluenceTrace.InnerFind | dataset/attack_analysis.go:458-498 | a source is found along a repetition-free path, or everything newly visited leads only to visited nodes and is no source |
| InfluenceTrace.LocateVarReadAndInfluenceTrace | dataset/attack_analysis.go:444-522 | terminates on cyclic graphs, and finds a source if and only if one is reachable upstream |
| InfluenceTrace.TraceRunsFromSource | dataset/attack_analysis.go:444-522 | the operation trace starts at the source, ends at the sink, repeats nothing and follows From edges |
| InfluenceTrace.CallTraceJoins | dataset/attack_analysis.go:444-522 | the trace of calls is the calls of the operation trace with repeats joined, from the source's call to the sink's, and after it the given child call of an Ether sink |
| InfluenceTrace.ExploredClosed | dataset/attack_analysis.go:458-498 | no path leads out of an explored set |
| DivergenceAutomaton.TaintAnalyzer.NewFlowNode | dataset/taint_analysis.go:92-104 | a new node gets a control edge from the diverging node, a known one is left |
| DivergenceAutomaton.TaintAnalyzer.CollectMergeBlocks | dataset/taint_analysis.go:281-290 | the blocks ahead by head, the last of each head |
| DivergenceAutomaton.TaintAnalyzer.BasicBlockTail | dataset/taint_analysis.go:246-295 | the hook's five outcomes: still diverging, merged, past the end, on the path, newly diverging |
| DivergenceAutomaton.MergeBlocksAhead | dataset/taint_analysis.go:281-290 | merge blocks are exactly the heads ahead, each at its last place |
| DivergenceAutomaton.TailAdvances | dataset/taint_analysis.go:246-295 | the index never falls and rises if and only if the run synchronises, to a block with the head to come; the diverging node is there only while diverging |
| DivergenceAutomaton.RunConsistent | dataset/taint_analysis.go:246-295 | over any run the index stays inside a non-empty reference path |
| DivergenceAutomaton.SyncedIsSubsequence | dataset/taint_analysis.go:246-295 | synchronised blocks are a common subsequence of the run and the reference path |
| DivergenceAutomaton.ControlOnlyWhileDiverging | dataset/taint_analysis.go:92-104 | a control edge is added if and only if a diverging node is set, so only while diverging |
| DivergenceAutomaton.DivergesSinceSome | dataset/taint_analysis.go:246-295 | a run diverges if and only if it has been diverging since some event |
| DivergenceAutomaton.BlamedExactly | dataset/taint_analysis.go:269-285 | while a run diverges, the diverging node is the tainted sink of the tail this divergence began at; none if that tail had none or left the end of the path |
| DivergenceAutomaton.ControlEdgesExactly | dataset/taint_analysis.go:92-104 | over any run a node has no control edge if it was made on the path, else exactly the one from that sink |
| DivergenceAutomaton.MergesAgainExactly | dataset/taint_analysis.go:246-295 | a diverging run merges at some next block if and only if the reference path has a block ahead |
| DivergenceAutomaton.PastTheEnd | dataset/taint_analysis.go:269-274 | a run that diverges at the end of the reference path stays diverged, keeps its index and synchronises nowhere any more |
| DivergenceAutomaton.NeverDivergesExactly | dataset/taint_analysis.go:246-295 | a run never diverges if and only if its tails lead to exactly the next reference blocks |
| DivergenceAutomaton.FollowingNeverDiverges | dataset/taint_analysis.go:246-295 | such a run is at the reference block of as many tails |
| DivergenceAutomaton.FallThroughExactly | dataset/taint_analysis.go:246-295 | a run through exactly the blocks of a path with distinct heads never diverges if and only if no block that calls no hook comes before one that does |
| DivergenceAutomaton.FallThroughDiverges | dataset/taint_analysis.go:246-295 | a path of three blocks, the first of which falls through, on which the run diverges |
| TxHistories.PositionsOrdered | dataset/tx_history.go:42-56 | positions are totally ordered |
| TxHistories.BuildGraph | dataset/tx_history.go:482-505 | the loop builds the graph without the nonce panic when every sender's nonces grow |
| TxHistories.GraphLinks | dataset/tx_history.go:482-505 | a record's edge leads to its sender's last ordinary record before it, and is missing if and only if there is none |
| TxHistories.SlicePrerequisites | dataset/tx_history.go:561-600 | the traversal returns the chain of the sender's earlier records down to the bound; nothing for pseudo transactions or records from elsewhere |
| TxHistories.PrerequisitesExact | dataset/tx_history.go:557-600 | that chain is ascending, without duplicates, and holds a record if and only if it is ordinary, of the same sender, earlier, and strictly after the bound |
| Windows.SliceTxRecords | dataset/tx_history.go:604-633 | exactly the records held between two positions, in order |
| Windows.Search | dataset/searcher.go:292-346 | the cases checked are those of the nested loops, attack by attack |
| Windows.SearchVictimGivenAttack | dataset/searcher.go:348-637 | victims after the attack and profit transactions after the victim, each let through only if not before the pivot |
| Windows.WindowChecksOnce | dataset/searcher.go:292-537 | a window checks each ordered pair and triple it holds exactly once if its last transaction is not before the pivot, else never |
| Windows.ScheduleExactly | cmd/collect.go:230-273 | a window is opened at a block if and only if it is `from + k * step` for some k and below the end, once each, with the pivot where the one before it ended |
| Windows.ExactlyOneWindow | cmd/collect.go:240-273 | for every range, window and step, transactions that lie in `window` blocks from some `from + k * step` below the end pass the gate in exactly one window, others in none |
| Windows.OpenWindow | dataset/searcher.go:102-113 | a window holds exactly the ordinary transactions of its blocks, in order |
| Windows.Collect | cmd/collect.go:230-273 | every pair and triple that lies in `window` blocks from some `from + k * step` below the end is checked exactly once over all windows, and no other at all |

## Left out

Taint engine:

- TaintSoundness.TaintSound: a single frame. Calls, creation, call data and return data inside the frame, storage shared between frames and re-entrancy are not in the run; the transport of call data and return data between frames is in `ShadowMemory` alone.
- TaintSoundness.TaintSound: asks for untainted memory offsets and lengths, SSTORE keys and block numbers, each of which `TaintExactness` shows to be needed; GAS is left out because runs would differ in it.
- TaintSoundness.TaintSound: soundness is stated as tainted or untainted. Node IDs, which merged memory nodes of one operation share, are not modelled.
- DataFlow.DataFlowTracer.CheckOperation: shared storage and balance variables are taint sources, shared code variables are not, nor is CALL, which reads a balance and is a sink in the original.
- DataFlow.DataFlowTracer.SinkTainted: tainted calls are not filed, as there are none in a single frame; what it leaves for the block tail hook is a parameter of the divergence automaton.
- ShadowMemory.Memory.Load: offsets are unbounded; 64-bit wrap-around at the very end of the address space is not modelled, as memory that size cannot be paid for. The same holds for every loop over memory.
- The unused `memory.Set`, success and value nodes of a call, `GetAllReturnData`.
- Gas and its exhaustion: a run may stop at any step for other reasons only.

Lazy fork:

- ForkedStates.ForkedState.Copy: the StateDB and the four bookkeeping maps are one heap object, since every operation copies or adopts them together; go-ethereum's journal and tries are not modelled.
- ForkedStates.ForkedState.GetCommittedState: the remote reader is a fixed total function, so reader errors and `lastErr` do not occur.
- A map of maps is one map keyed by address and slot, with the set of addresses whose inner map has been made where an assignment could panic.
- Existence.ExistExactly: an eager copy is taken to hold the accounts that are not empty remotely, and any write makes its account exist.
- Suicide, CreateAccount, deletion of empty accounts, the access list, which a revert does not restore, and code size and hash, which follow from the code.

Call summaries:

- SummaryTracers.TxSummaryTracer.CaptureState: all kinds of records are collected, as with every configuration flag on, and the opcode a code variable was read by is not kept. Open calls are values, so the aliasing between a call and its summary is not modelled.
- SummaryExact.OverallDefsExact: storage only. `SummaryBalances.OverallBalancesExact` says what holds of balances; code definitions are never made.
- SummaryUses.OverallUsesExact: storage only. `SummaryBalances.BalanceUsesExact` says what holds of balances; code is not followed.
- SummaryBalances.SettlementUseIsOff: gas and fees, which change the sender's balance too, are not modelled.
- SummaryExact.OverallEtherExact: a call's value moves between its accounts as the call is entered and comes back if it fails; whether it is paid is part of the event; fees and self-destruction are not modelled.
- SummaryProfits.OverallProfitsAreTransfers: fungible assets only; `SummaryTokens.OverallQuantitiesExact` says what holds of ERC721 tokens too.
- Profits.Add: lists are values; that Add and AddWithOverride write through the receiver's array is not modelled.
- Profits.OrderMeans: for lists without duplicates and without ZeroProfit, as Add builds them from transfers.
- Transfers.Merge: the location a transfer was made at is not kept.
- The deprecated ERC721Profit, SomeMore, GroupByType, the per-asset getters, decoding of event logs, the flattened execution path, the lookup by gas, the list of invoked addresses, encodings.

Tracer:

- TracerRuns.NestedCallTracer.CaptureEnter: calls are numbered in the order they are entered instead of linked by reference.
- BasicBlocks.DataWithTrace.CaptureState: links between neighbouring blocks, gas per location and code addresses are not kept.
- CompactPositions.CompactByTime: for runs in which no call is entered from a precompiled contract, as these have no code to call from.
- SearchForLocation and OutOfGas.

Attack analysis and search:

- PathAlignment.LocateConsequencePoint: the profits inside a block and whether the call it ends in reverted are given functions, as both are read off summaries.
- PathAlignment.ScanDecides: for block profits without ZeroProfit, as transfers make them.
- InfluenceTrace.LocateVarReadAndInfluenceTrace: a node stands for its operation, so the per-operation check of call positions is by node.
- DivergenceAutomaton.TaintAnalyzer.BasicBlockTail: the head of the block to come is given; computing it from the stack is not modelled.
- TxHistories.SlicePrerequisites: transaction indices below 10000, past which record IDs collide, and merging one record into the sorted list is ordered insertion.
- Windows.Search: filters, the checks of the attack's target and cancellation are left out, as each only drops cases.
- Windows.SearchVictimGivenAttack: the checks that drop a victim or a profit transaction, and the return after a found attack, are left out.
- Windows.OpenWindow: asks for a window with some record in it, as the search fails on an empty one. Every block the chain reports ends in a pseudo record of its block reward (dataset/tx_history.go:350-387), so no window is empty.
- Windows.Collect: filters, early returns, timeouts, concurrency and every oracle that may drop a case are left out; what is counted is which cases the loops and the pivot let through.
- Readers, caches, databases, RPC, the command line, address-path enumeration and oracles that combine a profit transaction.
