# A model of DesignVM

DesignVM executes blocks of transactions on an Ethereum-style virtual machine. This project models two of its parts, and a small
third one, in Dafny and proves what they promise.

**The virtual machine** (`vm/ethvm`). `VMInterpreter.Run` steps through a contract's code, charging gas for every instruction, and
calls itself through the call and create instructions. Its safety rests on many small pieces: the bit map of PUSH arguments and its
shared cache, the memory-size functions, the quadratic memory fee, the 63/64 rule with its wrapping subtraction, and the net metering of
SSTORE. Each piece is a module here, proved against a short specification, and `Interpreter.dfy` composes them: the mutually recursive
methods from `Run` down to each instruction are proved to end, to give back at most the gas supplied, to fetch only instructions, to
stay within the stack and the memory paid for, to conserve value, and to change nothing under a static call.

**Parallel execution** (`transcut`, `process`). A block is cut into levels; the transactions of a level run at once on one snapshot and
record what they read and write; `DetectConflicts` accepts or rejects each record and merges what is accepted; the result is committed.
The modules `Marks`, `ExecPools`, `Conflicts`, `Commit`, `LevelCommit`, `LevelRuns` and `Blocks` prove that the levels partition the
block, that the worker pool executes every item once under every schedule and cannot stop short, what a level does to the total of all
balances, what state a whole block comes to, which of its transactions take effect, and under which exact conditions that state is one of a
serial execution. Rejected transactions are executed again by a function of their own, so a block is run with two programs. `Transitions`
and `PaymentLevels` model both functions for payments: the first conserves value, the second loses the value a second time.

**Linked contracts** (`vm/ethvm/ewasm_linker.go`). `JoinTxdata` and `SplitTxdata` are printer and parser of one layout (`Linker`).

| file | contents |
|---|---|
| `Words.dfy`, `Params.dfy`, `BigEndian.dfy`, `Sums.dfy` | machine words with their wrap-around, the constants of `params`, big-endian bytes, finite sums |
| `Analysis.dfy`, `Contract.dfy` | the bit map of PUSH arguments; contracts and the shared JUMPDEST cache |
| `Memory.dfy`, `Stack.dfy`, `JumpTable.dfy`, `GasTable.dfy`, `CallGas.dfy` | memory and its fee, the stack, the instruction table, dynamic gas, the gas of calls |
| `SStore.dfy` | the three SSTORE schedules and the refund counter |
| `WriteSet.dfy`, `TxContext.dfy` | read and write sets, conservation of value, the static view |
| `Instructions.dfy`, `Interpreter.dfy` | the instructions and the run loop |
| `MarkCache.dfy`, `ExecPool.dfy`, `Conflicts.dfy`, `Commit.dfy` | levels, worker pool, conflict detection, commit |
| `LevelCommit.dfy`, `LevelRun.dfy`, `Block.dfy` | the commit of a level, levels and blocks as serial executions, the execution of a block |
| `Transition.dfy`, `PaymentLevel.dfy` | payments: execution, execution again, levels of payments |
| `Linker.dfy` | the layout of linked contracts |

What the state database, the precompiled contracts, the abort flag and 256-bit arithmetic answer is chosen arbitrarily in the
interpreter, so its theorems hold for all their behaviours. Hash functions are uninterpreted. Integers are bounded, and wrap, where the
source's do.

## What turned out false, and when it holds

- The SSTORE gas functions read the state database, while `opSstore` writes to the write set, so that several writes to one slot are not
  metered net (`BufferedMeteringFails`). They are exactly when the overwritten values that differ from the original cost what the zeros
  among them earn (`BufferedMeteringOfCleanSlotIff`).
- A level without items blocks for ever in the loop that drains the results; that happens for a block without transactions
  (`EveryScheduleDelivers`, `ExecBenchTxs`). The parallel commit blocks in the same way exactly when there is nothing to commit
  (`CommitInParallel`).
- Execution again debits the value of a payment before the call debits it, so that it conserves value exactly when there is none, or the
  sender is too poor (`PaymentAgainConservesIff`); nor does it check the nonce. It leaves what the payment would leave exactly when the
  sender is too poor, or the value is zero and the nonce right (`AgainIsPaymentIff`). Of payments that can each be made it befalls exactly
  those that meet an earlier accepted one (`RunAgainIffMeets`): two to one recipient are enough.
- A transaction that ends in an error on the snapshot of its level never takes effect: it reports no reads, is accepted, writes nothing and
  is not executed again. All others of the level take effect once (`TakesEffectIff`, `BlockTakesEffect`). A sender's next payment is lost in
  this way when it shares a level with the first (`NextPaymentIsLost`), and it can (`SendersShareLevels`).
- A level whose transactions all end in an error has nothing to commit, and blocks for ever (`LevelOfErrorsBlocks`); `LevelBlocks` is the
  exact condition. It includes an error of a transaction that is executed again, where the source panics at the missing receipt
  (process/cacheSet.go:266) before the commit could block.
- SSTORE panics when neither its slot nor its account is in the access list (`Step`, `DynamicGas`), and nothing puts the address of the
  outermost callee there: the preparation of the list is commented out (process/process_transition.go:347-349). Calls put their callee's
  address in the list (vm/ethvm/operations_acl.go:155) and creations the new one (vm/ethvm/ethvm.go:872), and no failure takes out what was
  there before, so that only frames that act for the outermost callee's address can panic, and only if it is absent at entry (`Run`,
  `Call`, `OpCalls`, `CreateAccount`).
- Marks do not keep the transactions of a level apart: two of them may pay the same account (`LevelsShareRecipients`). They are kept apart
  exactly when every transaction, as it is filed, asks for a new level or shares no address with those in the highest one
  (`FiledApartIff`, `LevelsApartIff`).
- A failed record's nonce entry replaces everything that earlier accepted records wrote for the account
  (`FailedRecordDropsEarlierWrite`); `FailedMergeIsRightIff` says when nothing is lost.
- The merged writes are not always what the accepted transactions leave one by one: a later entry may drop a pending debit, or bring it into
  a balance it sets, or begin an account anew. `MergeCommitsIff` and `CommitTwiceIff` say exactly when they are.
- Two accepted records that debit the same account create value, because the later pending debit replaces the earlier
  (`MergeMayCreateValue`). `LevelGain` gives the exact amount for a level, and `LevelConservesIff` when it is none.
- The check before a transfer looks at neither the pending debits nor more than 64 bits: an account may spend what it has twice in one
  transaction (`GuardPassesTwice`), and `GuardKeepsSolventIff` says when it cannot.
- CREATE does not follow the rule of EIP-150: the code keeps a sixth of the gas, not a 64th (`SixthOf64`), which is the same exactly below
  six (`SixthIsA64thIff`, `RunCreate`). It also uses the creator's own address for the new account, and so fails, and loses what it
  forwarded, whenever the creator has code or a nonce in the state (`RunCreate`, `OpCreates`).
- Whether value is moved is decided by its low 64 bits: a transfer of a positive multiple of 2^64 is recorded as none (`EnteredMoves`).
- One kind of entry can be added below a static call: the mark that creates a precompiled contract's account. It is added exactly when such
  an account is entered without existing (`EnteredMarks`, `StaticCallMayMark`), and `StaticViewMeans` says that there is no other kind.
- The parallel commit takes no code: it leaves what the in-order one leaves exactly under the conditions of `CommitsAgreeIff`.
- SplitTxdata does not look at the magic bytes, so that not all it splits is rebuilt by JoinTxdata (`SplitThenJoin`).

## What is assumed

- Equal nonzero code hashes in one call tree mean equal code. It is needed: a JUMPDEST cache that holds the analysis of one contract under
  the hash of another misjudges jumps (`CollisionMisjudges`).
- Serial equivalence (`CommitIsSerial`, `LevelIsSerial`, `BlockIsSerial`) asks of each transaction, only on the state it is run on (the
  snapshot of its level, or the state at its execution again), that it is in error, or is rejected, or fits: what it does there is decided by
  what it reports as read, none of those reads is disturbed by the pending debits and new accounts written before it in its level, and its
  entries may be laid over what was written before (`Fits`, `Layers`). Debits, creations, failures and nonce checks are covered.
  `DisjointPaymentsFit` gives a family of nonce-checking transactions that meets the condition.
- The serial order is one over two programs, the parallel phase and execution again. It is a serial execution of the block's own transactions
  where execution again has the same effect as the parallel phase would have (`LevelIsOwnSerial`, `BlockIsOwnSerial`).
- That reads are reported is needed (`UnreportedReadsDoNotSerialise`), and the code does not do it throughout: SLOAD, the balances of a call
  with value, and the nonces and balances of senders and creators are reported (`OpSload`, `EnterAccount`, `BumpNonce`, `TransitionDb`), while
  BALANCE, SELFBALANCE, EXTCODESIZE, EXTCODECOPY, EXTCODEHASH, the code of a callee, whether it exists, the collision check, the balances of
  a creation and the coinbase's balance are read and not reported.

## Model

| member | source | states |
|---|---|---|
| Analysis.BoundaryOrPushData | vm/ethvm/analysis.go:60-103 | Every byte of a code is either where an instruction begins or an argument of exactly the PUSHn that the naive scan meets, never both |
| Analysis.NoBoundaryInside | vm/ethvm/analysis.go:64-72 | No scan of the code stops inside an instruction's argument |
| Analysis.ScansExtends | vm/ethvm/analysis.go:64-72 | Skipping an instruction's length from a boundary leads to a boundary |
| Analysis.Set1 | vm/ethvm/analysis.go:18-20 | Sets its one bit and no other |
| Analysis.SetN | vm/ethvm/analysis.go:22-28 | Although the second byte is overwritten, sets exactly the n bits from pos and keeps all others, provided nothing from pos on is set |
| Analysis.Set8 | vm/ethvm/analysis.go:30-34 | The same for eight bits over two bytes |
| Analysis.Set16 | vm/ethvm/analysis.go:36-42 | The same for sixteen bits over three bytes |
| Analysis.RunBit | vm/ethvm/analysis.go:22-28 | Or-ing the low byte and overwriting the next one with the high byte is the same as setting a run of bits |
| Analysis.BlockBit | vm/ethvm/analysis.go:30-42 | The overwriting byte patterns of set8 and set16 amount to a run of 8n bits |
| Analysis.MarkArgument | vm/ethvm/analysis.go:74-101 | The loops over 16, 8 and fewer bits mark the numbits bits from start and nothing else, within the buffer |
| Analysis.ScannedInstruction | vm/ethvm/analysis.go:64-101 | Marking one instruction's argument carries the correctness of the map from that instruction to the next |
| Analysis.CodeBitmapInternal | vm/ethvm/analysis.go:60-103 | With a zeroed buffer of len/8+5 bytes, never indexed out of range, bit i is set if and only if byte i is an argument of a PUSH instruction |
| Analysis.CodeBitmap | vm/ethvm/analysis.go:49-55 | The fresh bit map marks exactly the PUSH arguments, for every code |
| Analysis.CodeSegmentIsBoundary | vm/ethvm/analysis.go:44-46 | codeSegment is true of a position exactly when an instruction begins there |
| Contracts.Contract.constructor | vm/ethvm/contract.go:52-69 | A contract shares its parent's cache of analyses, and a cache with no parent starts empty and trustworthy |
| Contracts.Contract.IsCode | vm/ethvm/contract.go:101-130 | Whatever is cached, answers whether an instruction of this contract's own code begins at the position, and never drops or changes a shared analysis |
| Contracts.Contract.ValidJumpdest | vm/ethvm/contract.go:71-83 | A destination of any 256-bit size is valid exactly when it lies in the code, holds a JUMPDEST, and is not PUSH data |
| Contracts.CollisionMisjudges | vm/ethvm/contract.go:109-118 | With colliding code hashes the shared cache would deny a valid destination: the assumption about hashes is needed |
| Contracts.Contract.UseGas | vm/ethvm/contract.go:162-168 | Succeeds exactly when the gas suffices, takes the amount then and nothing otherwise |
| Memories.ToWordSize | vm/ethvm/common.go:63-69 | The exact ceiling of size/32 on all of uint64, with no overflow near the top |
| Memories.CalcMemSize64WithUint | vm/ethvm/common.go:21-34 | Reports overflow exactly when offset plus nonzero length passes 2^64 - 1, and the sum otherwise |
| Memories.CalcMemSize64 | vm/ethvm/common.go:11-16 | The same for a 256-bit length |
| Memories.Memory.GasCost | vm/ethvm/gas_table.go:14-41 | Fails exactly above 0x1FFFFFFFE0 bytes; otherwise returns the difference of the quadratic fees of the larger and the present size and records the new total, with no overflow |
| Memories.FeeFits | vm/ethvm/gas_table.go:28-33 | Up to the largest permitted word count neither the square nor the fee comes near 2^64 |
| Memories.FeesTelescope | vm/ethvm/gas_table.go:34-39 | What any run of expansions is charged in all is the fee of the final size less that of the first, whatever the steps between |
| Memories.FinalWordsIsMax | vm/ethvm/gas_table.go:27-39 | The final size is the largest that was asked for |
| Memories.ResizePaid | vm/ethvm/interpreter.go:205-208 | Once the fee is paid, resizing brings memory to the size paid for, keeps its contents, and adds zeros |
| Memories.Memory.Set | vm/ethvm/memory.go:21-33 | Inside the store, replaces exactly the given region (as Go's copy does) and keeps the rest; the panic is unreachable |
| Memories.Memory.Set32 | vm/ethvm/memory.go:36-46 | Replaces 32 bytes by the word's big-endian bytes; the panic is unreachable |
| Memories.WordRoundTrip | vm/ethvm/memory.go:36-46 | A stored word is read back from its 32 bytes |
| BigEndian.FromToBytes | vm/ethvm/memory.go:36-46 | Reading the big-endian bytes of a number gives the number |
| BigEndian.PaddedIsToBytes | vm/ethvm/ewasm_linker.go:251-265 | Minimal big-endian bytes padded with zeros are the fixed-width ones |
| Stacks.Stack.PopN | vm/ethvm/stack.go:45-49 | n pops in a row take the top n items in order and leave the rest; no underflow |
| Stacks.Stack.Swap | vm/ethvm/stack.go:65-67 | Exchanges two items and moves no other |
| JumpTable.TableBoundsMatch | vm/ethvm/jump_table.go:70-980 | For every opcode the table's stack bounds are exactly the operands that its execution function pops and the room it needs |
| JumpTable.TableGuardsStack | vm/ethvm/stack_table.go:39-45 | A stack within the table's bounds holds the operands, and the stack after the instruction has at most 1024 items |
| JumpTable.NothingIsFree | vm/ethvm/jump_table.go:70-980 | Every opcode that does not end the run costs at least one gas, constant or dynamic |
| JumpTable.TableParameters | vm/ethvm/jump_table.go:70-980 | The table's PUSH widths agree with the widths that the analysis skips, and DUP, SWAP and LOG numbers are in range |
| JumpTable.MemorySizeCovers | vm/ethvm/memory_table.go:3-162 | For every opcode, a memory of the size computed holds every region the execution function reads or writes |
| JumpTable.MemorySizeIsTight | vm/ethvm/memory_table.go:3-162 | That size is no larger than the end of some region that is accessed |
| JumpTable.RoundedMemorySize | vm/ethvm/interpreter.go:182-192 | The size rounded up to words; an overflow error exactly when an offset plus length, or the rounded size, passes 2^64 - 1 |
| GasTable.WordGas | vm/ethvm/gas_table.go:50-72 | A word-priced charge is the memory fee plus price times the word ceiling, and overflow is reported exactly when that does not fit |
| GasTable.LogGas | vm/ethvm/gas_table.go:243-271 | The memory fee plus topics and bytes at their prices, and an error exactly when the size or the sum passes 2^64 - 1 |
| GasTable.InitCodeGas | vm/ethvm/gas_table.go:205-237 | The memory fee plus a price per word, and an error exactly when the initcode is longer than twice the code size limit or the sum does not fit |
| GasTable.ExpGas | vm/ethvm/gas_table.go:338-349 | EXP is charged by the exponent's length in bytes; the unchecked product cannot overflow |
| GasTable.AccessGas | vm/ethvm/operations_acl.go:12-143 | Charges for a cold or a warm account or slot as the access list says, which then holds it; SSTORE fails exactly when left with no more than its sentry gas, and panics exactly when it is left with more and neither its account nor its slot is in the list; nothing else is added to the list, and nothing dropped |
| GasTable.DynamicGas | vm/ethvm/gas_table.go:50-72 | The dynamic gas of any instruction but a call is memory expansion plus a linear part plus the access charge, exactly; it fails exactly when memory or a length is beyond its limit, SSTORE is at its sentry or panics, or the sum does not fit; it panics exactly when SSTORE does |
| GasTable.DynamicGasIsMinimal | vm/ethvm/gas_table.go:243-289 | No dynamic charge is below its instruction's minimum |
| CallGas.CallGasCaps | vm/ethvm/gas.go:21-36 | With the base affordable, the forwarded gas is the smaller of the request and all but one 64th of what remains |
| CallGas.WrappedCallGasCannotBePaid | vm/ethvm/gas.go:21-36 | With the base not affordable the subtraction wraps, but the resulting charge always exceeds the available gas and never overflows |
| CallGas.OldCalculator | vm/ethvm/gas_table.go:351-441 | The four base calculators charge value transfer, new account and memory expansion plus the forwarded gas; no sum overflows |
| CallGas.CallVariant | vm/ethvm/operations_acl.go:146-178 | After the temporary cold surcharge the contract's gas is as before, and the charge either includes at most all but one 64th of the rest or cannot be paid; the unchecked addition does not overflow |
| CallGas.PayForCall | vm/ethvm/interpreter.go:193-204 | A call's gas is paid exactly when memory size and base are within bounds; then at most all but one 64th of the remainder is forwarded and the caller keeps at least a 64th |
| CallGas.SixthIsA64thIff | vm/ethvm/instructions.go:605-609 | What CREATE forwards is all but one 64th exactly when the gas is below six |
| CallGas.SixthOf64 | vm/ethvm/instructions.go:605-609 | A concrete case: of 64 units CREATE forwards 54, where the rule gives 63 |
| SStore.WriteMovesPotential | vm/ethvm/gas_table.go:81-148 | Gas minus refund of one write is the warm price plus the change of a quantity that depends only on original and current value, in all three schedules |
| SStore.NetMeteringIsPathIndependent | vm/ethvm/operations_acl.go:12-81 | Over any interleaving of writes to any slots, gas minus refund is a warm price per write, a cold charge per newly touched slot, and a term of start and end values only |
| SStore.NetMeteringOfOneSlot | vm/ethvm/gas_table.go:163-203 | For one slot from its committed value: n W + U [current differs] - R [cleared], plus one cold charge |
| SStore.StateDB.GasSStore | vm/ethvm/gas_table.go:81-148 | EIP-1283: cost and refund change for every combination of original, current and new value; SubRefund never underflows |
| SStore.StateDB.GasSStoreEIP2200 | vm/ethvm/gas_table.go:163-203 | EIP-2200: the same, and failure exactly at or below the sentry gas, without effect |
| SStore.StateDB.GasSStoreEIP2929 | vm/ethvm/operations_acl.go:12-81 | EIP-2929: the same with the cold surcharge and the access list, and a panic exactly when gas is above the sentry and neither account nor slot is in the list |
| SStore.StateDB.CounterCovers | vm/ethvm/gas_table.go:114-116 | Whenever a clearing refund is taken back the refund counter holds at least that much |
| SStore.StateDB.Write | vm/ethvm/gas_table.go:81-148 | Every write that the schedule does not refuse, over any slots, keeps the counter equal to pending clearing refunds plus reset refunds, and the net price in closed form; refusals are exact: never under EIP-1283, at the sentry under EIP-2200, there or where the access list makes it panic under EIP-2929 |
| SStore.RefundsBooked | vm/ethvm/gas_table.go:133-146 | A write changes the counter by its reset refund plus the change in the number of cleared slots times R |
| SStore.ClearedAfterWrite | vm/ethvm/gas_table.go:133-146 | A write changes the set of cleared slots by at most its own slot, in the direction of the refund |
| SStore.BufferedMeteringIsNetIff | vm/ethvm/instructions.go:537-549 | With writes buffered and the database unchanged, the net price is right exactly when the overwritten values hold no potential beyond the stored one's |
| SStore.BufferedMeteringOfCleanSlotIff | vm/ethvm/instructions.go:537-549 | For a slot as committed: exactly when the overwritten values that differ cost what the zeros among them earn |
| SStore.BufferedMeteringFails | vm/ethvm/instructions.go:537-549 | A concrete case: clearing a slot twice earns the refund of 4800 twice, 2000 net too little |
| WriteSets.WriteSet.UpdateCache | vm/ethvm/ethvm.go:300-338 | Pending debits accumulate, a balance starts from the known one and accumulates, every other entry is replaced, and no other entry changes |
| WriteSets.ReadSet.UpdateCache | vm/ethvm/ethvm.go:160-196 | A read adds its address and key to those reported, drops none and changes no other entry; amounts accumulate, other values are replaced |
| WriteSets.GainAfterUpdate | vm/ethvm/ethvm.go:300-338 | Updating one entry changes the total of effective balances by just the change at that account |
| WriteSets.OtherKeysMoveNothing | vm/ethvm/ethvm.go:300-338 | Entries under other keys move no value |
| WriteSets.TransferConserves | vm/ethvm/ethvm.go:548-559 | The debit and credit of a transfer conserve the total and move the amount from sender to recipient, self-transfers included |
| WriteSets.TransferredMoves | vm/ethvm/ethvm.go:548-559 | The two entries of a transfer conserve the total, move the amount, and touch no entry of another kind |
| WriteSets.GuardKeepsSolventIff | vm/ethvm/ethvm.go:514-524 | The check before a transfer guarantees that the effective balance covers the value, for all values of 64 bits, exactly when the pending debits plus the largest value that passes stay within the balance known |
| WriteSets.GuardPassesTwice | vm/ethvm/ethvm.go:514-524 | A concrete family: an account whose whole balance is already debited passes the check for it again, and ends below zero |
| WriteSets.StaticViewMeans | vm/ethvm/ethvm.go:545-547 | The static view is unchanged exactly when no entry but creation marks changes, and no mark but those of precompiled contracts |
| WriteSets.PrecompileCreationIsStatic | vm/ethvm/ethvm.go:545-547 | Marking a precompiled contract as created adds an entry, though the static view stands still |
| TxContexts.TxContext.RecordTransfer | vm/ethvm/ethvm.go:553-558 | The two entries recorded are those of the transfer, from the written or else the stored balance of the recipient, and value is conserved |
| TxContexts.TxContext.EnterAccount | vm/ethvm/ethvm.go:525-559 | The account is passed over exactly when it does not exist, gets no value and is not precompiled; the sender's balance is reported as read, and the recipient's exactly when value moves; the write set is that of marking and transfer, as Entered says |
| TxContexts.EnteredMoves | vm/ethvm/ethvm.go:539-559 | Entering an account conserves value and moves it exactly when its low 64 bits are not zero |
| TxContexts.EnteredMarks | vm/ethvm/ethvm.go:539-559 | The account is marked as created exactly when it is entered without existing, and no other entry but the two balance entries changes |
| TxContexts.StaticCallMayMark | vm/ethvm/ethvm.go:545-547 | A concrete case without value: entering a precompiled contract that does not exist adds its mark, though the static view stands still |
| TxContexts.TxContext.BumpNonce | vm/ethvm/ethvm.go:851-869 | The creator's nonce, the pending one if there is one, is reported as read, refused at 2^64 - 1, and otherwise written incremented |
| TxContexts.TxContext.EnterCreated | vm/ethvm/ethvm.go:886-899 | Entering a new account marks it and moves the value as Entered says, and reports nothing as read |
| Instructions.GetData | vm/ethvm/common.go:38-48 | The window of a byte string, as if followed by zeros, without overflow for any start |
| Instructions.AccessIsExact | vm/ethvm/instructions.go:222-304 | Inside paid memory the low 64 bits of offset and size are offset and size, and the int64 casts are exact |
| Instructions.FallThrough | vm/ethvm/instructions.go:898-934 | From an instruction, falling through or skipping its argument leads to an instruction or past the end |
| Instructions.JumpLands | vm/ethvm/instructions.go:555-561 | pos - 1 followed by the loop's increment is pos, at target 0 too where both wrap |
| Instructions.PushReadsArgument | vm/ethvm/instructions.go:913-934 | Byte i of a pushed argument is byte pc+1+i of the code, zero past its end |
| Instructions.OpPush | vm/ethvm/instructions.go:898-934 | PUSH0 to PUSH32 push the word their argument spells and advance pc by its length |
| Instructions.OpKeccak256 | vm/ethvm/instructions.go:222-240 | Replaces offset and size by the hash of that region of memory |
| Instructions.OpMload | vm/ethvm/instructions.go:494-499 | Replaces the offset by the word there |
| Instructions.OpMstore | vm/ethvm/instructions.go:501-506 | Writes the word's 32 bytes at the offset and nothing else |
| Instructions.OpMstore8 | vm/ethvm/instructions.go:508-512 | Writes the low byte at the offset and nothing else |
| Instructions.OpCopy | vm/ethvm/instructions.go:288-304 | Copies the zero-extended window of the source into memory and nothing else, for offsets of any size |
| Instructions.OpReturnDataCopy | vm/ethvm/instructions.go:311-331 | Refuses exactly the windows that reach past the return data, and copies the others |
| Interpreter.ETHVM.Run | vm/ethvm/interpreter.go:96-226 | Ends; returns at most the gas supplied; restores call depth and read-only mode; conserves value; drops no reported read; adds, called statically or from a static frame, no storage, nonce, code, balance or debit entry, no log, and no account but a precompiled contract's; and leaves a trace that starts at the first instruction, in which every turn is the next instruction or a valid jump target after a jump, with the stack within 1024 items and the fees paid those of the memory, no longer than the gas spent plus one, ending without error only past the end or at an instruction that may stop; no address leaves the access list, and it panics only if the frame's own address is not in the list at entry |
| Interpreter.ETHVM.RunLoop | vm/ethvm/interpreter.go:108-226 | The same of the loop on an empty frame; without code there is no turn |
| Interpreter.ETHVM.Loop | vm/ethvm/interpreter.go:156-226 | The same of the loop from its first turn on |
| Interpreter.ETHVM.Step | vm/ethvm/interpreter.go:160-219 | A turn that goes on has cost at least one gas net of what a call returned, and leads to the next instruction or, after a jump, to a valid target; one that ends has an error of a run, and the stop token only at an instruction that may stop; but for a call, it panics exactly when its instruction is an SSTORE with more gas than the sentry, whose account and slot are not in the access list |
| Interpreter.ETHVM.Prepare | vm/ethvm/interpreter.go:171-208 | What passes the checks has its operands, room on the stack, paid memory holding all its regions, and less gas than before; a call's gas with the stipend stays below the caller's; the panic of SSTORE is exact, and a call's callee is in the access list |
| Interpreter.ETHVM.Grow | vm/ethvm/interpreter.go:180-208 | Dynamic gas is paid at least at its minimum, and memory then covers all regions of the instruction |
| Interpreter.ETHVM.Charge | vm/ethvm/interpreter.go:193-204 | Paying dynamic gas leaves the forwarded gas, the rest and the transfer charge together within what there was; it panics exactly when SSTORE does, and a call's callee is then in the access list |
| Interpreter.ETHVM.Execute | vm/ethvm/interpreter.go:209-219 | Execution keeps the books and the memory size, takes an instruction's operands, leaves its results, touches nothing beneath them on the stack, and continues at the next instruction or a valid target; PUSH, DUP, SWAP, PC, MSIZE and GAS leave what they should; a panic comes only out of a CALLCODE or DELEGATECALL, in a frame whose own address was not in the access list |
| Interpreter.ETHVM.ExecuteStack | vm/ethvm/instructions.go:577-594 | PC, MSIZE, GAS and PUSH push what they should; others replace their operands only |
| Interpreter.ETHVM.ExecuteShuffle | vm/ethvm/instructions.go:937-953 | DUPn copies the n-th item, SWAPn exchanges two items and moves no other |
| Interpreter.ETHVM.ExecuteCopy | vm/ethvm/instructions.go:288-363 | Call data, code or return data is copied as the opcode says, and only return data can be refused |
| Interpreter.ETHVM.OpJumps | vm/ethvm/instructions.go:551-575 | A jump that is taken lands on its operand, which is a JUMPDEST and an instruction; one that is not taken falls through; a run ends here only because the machine was stopped, or because a jump is taken to an invalid target |
| Interpreter.ETHVM.OpSload | vm/ethvm/instructions.go:514-535 | The slot is reported as read, and the transaction's own write is what is pushed |
| Interpreter.ETHVM.OpSstore | vm/ethvm/instructions.go:537-549 | Refused in read-only mode without effect, otherwise records exactly the one slot |
| Interpreter.StoredWordRoundTrip | vm/ethvm/instructions.go:514-549 | A word that SSTORE buffers without leading zeros is the word SLOAD reads back |
| Interpreter.ETHVM.OpLog | vm/ethvm/instructions.go:860-895 | Refused in read-only mode without a log; otherwise appends the log of the frame's own address, the n topics and the region of memory that its operands name |
| Interpreter.ETHVM.OpCalls | vm/ethvm/instructions.go:680-814 | All four calls: refused exactly for a CALL with value in read-only mode; otherwise one flag is pushed that says whether the callee succeeded, and the returned data goes to the region that the operands name exactly when it succeeded or reverted; gas ends below the gas before the step, and the static view is kept in read-only mode; a panic passes through, and comes only of CALLCODE and DELEGATECALL when the frame's own address was not in the access list |
| Interpreter.ETHVM.FinishCall | vm/ethvm/instructions.go:706-718 | A flag on the stack, and returned data in the given region exactly when the callee succeeded or reverted |
| Interpreter.ETHVM.PopCall | vm/ethvm/instructions.go:683-694 | The operands of each call opcode come from the right stack items, and its arguments from the region they name |
| Interpreter.ETHVM.OpCreates | vm/ethvm/instructions.go:596-678 | Refused exactly in read-only mode; otherwise the new address or zero is pushed, the return data is empty unless the initcode reverted, and gas falls; CREATE by an account that has code or a nonce in the state always pushes zero |
| Interpreter.ETHVM.RunCreate | vm/ethvm/instructions.go:605-634 | CREATE2 forwards all but one 64th of the gas, CREATE all but a sixth, which is the same exactly below six; what comes back is at most that, all of it if refused; CREATE by an account with code or a nonce, unless refused, collides and loses what was forwarded |
| Interpreter.ETHVM.ExecuteHalting | vm/ethvm/instructions.go:816-855 | The instructions that end a run, each with its error; SELFDESTRUCT is refused in read-only mode |
| Interpreter.ETHVM.Call | vm/ethvm/ethvm.go:507-610 | Keeps the books, frozen in a static frame unless value is sent; refused exactly beyond the depth limit, or with value that does not pass the check, and then gives all gas back; a callee that reverts or succeeds gives back what it left, any other failure nothing; the caller's balance is reported as read; a failed callee leaves the access list as it was, and a panic comes only of an address not in it |
| Interpreter.ETHVM.RunCallee | vm/ethvm/ethvm.go:582-609 | What a precompiled contract or a run left unused is given back exactly when it succeeded or reverted; errors of refusals never come from a run; any failure but a panic restores the access list |
| Interpreter.ETHVM.CallAsCaller | vm/ethvm/ethvm.go:619-748 | CALLCODE and DELEGATECALL move no value, keep the static view of a static frame, and settle the gas as Call does; CALLCODE is refused exactly when the value does not pass the check; a panic comes only of a caller whose own address is not in the access list |
| Interpreter.ETHVM.StaticCall | vm/ethvm/ethvm.go:754-815 | No storage, nonce, code, balance or debit entry and no log is added anywhere below a static call, and no account but a precompiled contract's is marked as created |
| Interpreter.ETHVM.CreateAccount | vm/ethvm/ethvm.go:831-960 | Creation conserves value and restores depth and mode; refused exactly beyond the depth limit, when the value does not pass the check, or when the nonce is at its limit, and then gives all gas back; it collides exactly when the address has code or a nonce; code that cannot be paid for, and reverts, keep the gas, any other failure forfeits it; unless refused, the new address enters the access list and stays there even if the creation fails, so that no creation panics |
| Interpreter.ETHVM.Deploy | vm/ethvm/ethvm.go:916-950 | When creation succeeds the returned code is the account's code entry, and the gas is settled as SettledCreate says |
| Interpreter.ETHVM.StoreCode | vm/ethvm/ethvm.go:918-950 | Code is stored exactly when the initcode succeeded, the code is within the limit and does not start with 0xEF, and 200 gas a byte can be paid, which then is paid; otherwise no entry changes, and any failure but a revert or unpaid code forfeits the gas |
| Marks.FiledKeepsLevels | transcut/transactionMark.go:56-111 | Filing an item appends it to the concatenation of the levels, opens at most one level, leaves none empty and none filled above the highest, and no mark exceeds the highest level |
| Marks.FiledApartIff | transcut/transactionMark.go:56-111 | An item shares no address with the rest of the level it is filed in exactly when it asks for a mark above the highest level, or shares none with the items there; and all levels stay apart exactly when they were and it does |
| Marks.LevelsApartIff | transcut/transactionMark.go:56-111 | The levels of a whole list of items are kept apart exactly when every item, as it is filed, meets that condition |
| Marks.LevelsOfBlock | process/process.go:143-152 | When every transaction has a recipient, levels 0 to the highest concatenate to the submission order, none of them is empty unless the block is, and they are kept apart exactly when every item keeps apart |
| Marks.LevelsInUse | transcut/transactionMark.go:113-119 | The levels up to the highest hold all items |
| Marks.LevelsShareRecipients | transcut/transactionMark.go:66-82 | A concrete case in which FiledApartIff's condition fails: three transactions of which two with the same recipient share a level |
| Marks.MarkCache.SetMarkCache | transcut/transactionMark.go:56-111 | With its shadowed variable and padding loop does what the specification of filing says; faults exactly without a recipient |
| Marks.MarkCache.FillLevels | process/process.go:143-152 | The loop over a block faults exactly without a recipient, and otherwise files every item as the specification says |
| ExecPools.PartItems | process/execpool.go:119-128 | The parts concatenate to the items; all but the last have len/count items and the last the remainder as well; no slice is out of range |
| ExecPools.StepConserves | process/execpool.go:66-99 | No step of dispatcher, worker or drain loses, duplicates or invents an item |
| ExecPools.StepShortens | process/execpool.go:66-159 | Every step leaves fewer steps to take, so every schedule ends |
| ExecPools.StepKeepsValid | process/execpool.go:66-159 | The invariant of the protocol is kept by every step |
| ExecPools.SendNeverBlocks | process/execpool.go:79-83 | A worker that holds a result always finds room in the result channel |
| ExecPools.DrainedSoFar | process/execpool.go:129-159 | Once all workers have returned, results and drained results are as many as the items |
| ExecPools.StuckIff | process/execpool.go:66-159 | The pool can take no step exactly when it is done, or when there are no items and it drains |
| ExecPools.EveryScheduleDelivers | process/execpool.go:66-159 | Every schedule is finite, and where it stops every item has been executed and drained exactly once, each result being what the function reports for its item, unless there were no items: then the drain blocks for ever |
| ExecPools.StartIsValid | process/execpool.go:110-128 | The pool starts with all items in the dispatcher's chunks |
| ExecPools.FanOutIsValid | process/process.go:158-174 | So does the variant with one goroutine for each item |
| ExecPools.RunToEnd | process/execpool.go:66-159 | Taking enabled steps in any order ends, blocked exactly without items, else with the function's results for a permutation of the items |
| ExecPools.FillUpPoolWithTask | process/execpool.go:101-162 | The results are the function's results for all the items, once each, for any number of processors |
| Conflicts.CacheSet.SetCache | process/cacheSet.go:129-135 | Keeps the first record of a transaction and lists every record once |
| Conflicts.HasConflict | process/cacheSet.go:188-207 | In whatever order the nested maps are visited, the early exits find a conflict exactly when a key that was read has been written |
| Conflicts.WrittenBefore.Merge | process/cacheSet.go:209-234 | In whatever order accounts are visited, the merged map is one function of the earlier writes and the record |
| Conflicts.DetectConflicts | process/cacheSet.go:184-236 | The loop computes, for any order of the records, acceptance, merged writes and the list to execute again as the specification says |
| Conflicts.Validate | process/cacheSet.go:188-234 | One turn accepts a record exactly when it clashes with nothing written, and merges it then |
| Conflicts.MergeIsOverlay | process/cacheSet.go:209-221 | Merging a record without error is overlaying its writes |
| Conflicts.OverlayAssociative | process/cacheSet.go:209-221 | Overlaying is associative, so a merged map is a sequence of writes |
| Conflicts.NoClashNoDifference | process/cacheSet.go:188-207 | A transaction that clashes with no write reads the same values before and after it |
| Conflicts.AcceptedTransactionsSerialise | process/cacheSet.go:184-236 | Serialisability: the merged writes laid over the snapshot are the state after running the accepted transactions one by one in the order of detection |
| Conflicts.RejectedIffReadsEarlierWrite | process/cacheSet.go:188-207 | A transaction is rejected exactly when it read a key that an earlier accepted one wrote |
| Conflicts.WrittenIsAccepted | process/cacheSet.go:209-234 | A read set clashes with the merged writes exactly when it clashes with some accepted record |
| Conflicts.FailedMergeIsRightIff | process/cacheSet.go:223-230 | Merging a failed record leaves its nonces and no more exactly when, at every account it writes, with a nonce entry nothing but a nonce was written before, and without one all its entries were there before |
| Conflicts.FailedRecordDropsEarlierWrite | process/cacheSet.go:223-230 | A concrete pair of accepted records of which the failed one erases the other's write |
| Commit.AccountDB.CommitAccount | process/process.go:438-474 | Whatever the iteration order, an account ends as one function of its entries, and no other account changes |
| Commit.AccountDB.CommitAll | process/process.go:438-474 | Whatever the order of accounts and keys, the state after the in-order commit is the same |
| Commit.AccountDB.CommitInParallel | process/process.go:488-548 | In whatever order the state objects arrive the state is the same; it blocks for ever exactly when there is nothing to commit |
| Commit.CommitsAgreeIff | process/process.go:438-548 | The parallel commit agrees with the in-order one on an account exactly when no new code is set and, where the created account's object is not followed, neither balance nor nonce nor any slot changes |
| Commit.OneMoreApplied | process/process.go:458-472 | Applying one more entry to an account commutes with those already applied |
| Commit.CommitRealisesEffective | process/process.go:453-468 | The commit gives every account its effective balance |
| Commit.CommitAddsGain | process/process.go:453-468 | The total of all balances grows by the write set's total gain, which a run keeps at zero |
| Commit.FilterFailed | process/process.go:263-274 | Only the nonce entries of a failed transaction stay |
| Commit.CommitResult | process/process.go:263-276 | A failed transaction changes nothing but nonces, a successful one is committed in full |
| Commit.NonceOnlyCommit | process/process.go:263-276 | Committing what the filter leaves sets the nonce and nothing else |
| LevelCommit.CommitTwiceIff | process/process.go:438-474 | Two commits to an account are one commit of the overlaid entries exactly when the second neither drops a pending debit of the first nor brings it into a balance that it sets, nor begins anew an account where the first left something it does not set |
| LevelCommit.UnwrittenIsObservedAsBeforeIff | process/process.go:438-474 | What is read under a key without an entry is as before a commit exactly when, of a balance, no debit is pending, and, of a nonce or a slot, the account is not begun anew or was as new there |
| LevelCommit.MergeCommitsIff | process/cacheSet.go:209-221 | Committing the merged writes is committing what was written before and then the record, for a record without error, exactly when its entries may be laid over the earlier ones |
| LevelCommit.CommitIsSerial | process/cacheSet.go:184-238 | For records that fit where they are validated, debits, creations and failures included, committing the merged writes in order leaves the very state that running and committing the accepted transactions not in error one by one leaves |
| LevelCommit.ParallelCommitIsSerialIff | process/cacheSet.go:184-238 | The parallel commit that DetectConflicts makes leaves an account so exactly when the two commits agree on its merged writes |
| LevelCommit.UnreportedReadsDoNotSerialise | vm/ethvm/instructions.go:247-255 | A concrete pair of accepted transactions, the second reading a balance without reporting it as BALANCE does, whose commit is no serial execution |
| LevelCommit.SeriallyAppend | process/cacheSet.go:245-284 | Running a list of transactions and then another is running both |
| LevelCommit.MergeGain | process/cacheSet.go:209-221 | What a merge adds to the total of all balances is what both write sets add, less an exact amount lost where both write the same balance key |
| LevelCommit.LevelGain | process/cacheSet.go:184-236 | What a level adds to the total of all balances is the sum of what its accepted transactions add, less what is lost as each is merged |
| LevelCommit.LevelConservesIff | process/cacheSet.go:184-236 | A level of value-conserving transactions conserves value exactly when what is lost sums to zero |
| LevelCommit.LevelConserves | process/cacheSet.go:184-236 | A level of value-conserving records conserves value when no two accepted ones write an account under the same balance key |
| LevelCommit.MergeMayCreateValue | process/cacheSet.go:209-221 | Two records that each conserve value, the second not clashing with the first, whose merge creates the amount transferred |
| LevelRuns.ReRunIsSerial | process/cacheSet.go:245-284 | Transactions executed again, rewritten if they failed and committed in parallel, run serially where each fits the state that it finds |
| LevelRuns.LevelIsSerial | process/cacheSet.go:184-284 | A level, whatever the order of validation, leaves the state of a serial execution: of what takes effect in the parallel phase, then of what is executed again by the other program |
| LevelRuns.LevelIsOwnSerial | process/cacheSet.go:184-284 | If in addition what is executed again has the effect that it would have had in the parallel phase, the level is a serial execution of its own transactions, each at most once |
| LevelRuns.ErrorsAreAccepted | process/process.go:305-320 | A transaction in error is accepted, so never executed again |
| LevelRuns.TakesEffectIff | process/cacheSet.go:184-240 | The transactions of a level are partitioned into those that take effect at once, those that are executed again, and the rest, which are exactly those that end in an error on its snapshot |
| LevelRuns.BlockIsSerial | process/process.go:152-229 | A block whose levels fit leaves the state of a serial execution of its levels in turn |
| LevelRuns.BlockIsOwnSerial | process/process.go:152-229 | Where execution again has the effects of the parallel phase, that is a serial execution of the block's own transactions, without those in error |
| LevelRuns.BlockTakesEffect | process/process.go:152-229 | Every transaction of a block takes effect exactly once or ends in an error on the snapshot of its level |
| Blocks.CollectRecords | process/process.go:207-217 | Under each hash of the level is filed the item and the record of the first result that has it, and under no other hash anything |
| Blocks.RunLevel | process/process.go:157-219 | For every schedule and every order of the records, a level is executed once per item on one snapshot, and the records validated are those of its items on it, one for each hash; it blocks exactly without items |
| Blocks.ExecLevel | process/process.go:157-230 | For every schedule and every order of validation, the state after a level is AfterLevel's for that order; it blocks exactly when LevelBlocks says so, and then always for a level without items |
| Blocks.ValidateLevel | process/cacheSet.go:184-238 | Acceptance, the hashes to execute again, and the state after the parallel commit; it blocks exactly when nothing was written |
| Blocks.ReExecute | process/cacheSet.go:245-284 | The rejected transactions are executed again, by the other program, one by one on the state as it then is, each committed in parallel, until one writes nothing: exactly then it goes no further |
| Blocks.LevelOfErrorsBlocks | process/process.go:488-548 | A level all of whose transactions end in an error blocks for ever |
| Blocks.OrdersPermute | process/process.go:152-226 | Where hashes are distinct, the orders of all levels together permute the block |
| Blocks.ExecBenchTxs | process/process.go:124-234 | Faults exactly when a recipient is missing; otherwise executes the levels in turn, each listed in some order, and blocks exactly at the first for which LevelBlocks holds on the state it finds, at once for the empty block; if none does, every transaction has been executed exactly once in the parallel phase, and the state is AfterBlock's for those orders, which together permute the block where hashes are distinct |
| Transitions.TransitionDb | process/process_transition.go:231-362 | For a payment: an error unless the nonce is the sender's; a failed record with the debit of the gas alone if the sender is too poor; otherwise nonce, reads and writes of a call, as RunOn says |
| Transitions.ReTransitionDb | process/process_transition.go:386-454 | Executed again: no check of the nonce, an error if the sender is too poor, and the value debited before the call debits it, as RunAgainOn says |
| Transitions.ErrorIff | process/process_transition.go:231-245 | In the parallel phase a payment is in error exactly when its nonce is not the sender's |
| Transitions.PaymentIsDecided | process/process_transition.go:231-362 | With the sender's nonce, what a payment does is decided by what it reports as read: a nonce-checking transaction that DecidedOn holds of |
| Transitions.PaymentConserves | process/process_transition.go:286-383 | A payment in the parallel phase conserves the total of all balances |
| Transitions.PaymentAgainConservesIff | process/process_transition.go:433-453 | Executed again it adds minus its value to the total, unless the sender is too poor; so it conserves value exactly when there is none or the sender is too poor |
| Transitions.SenderPaysTwice | process/process_transition.go:433-453 | Executed again, the sender is left with its balance less the value and less what is moved |
| Transitions.AgainRaisesNonce | process/process_transition.go:442-450 | Executed again, the sender's nonce is raised by one whatever it was, unless the sender is too poor |
| Transitions.AgainIsPaymentIff | process/process_transition.go:286-478 | Execution and execution again leave the same state exactly when the sender is too poor, or there is no value and the nonce is the sender's |
| PaymentLevels.ClashIsMeeting | vm/ethvm/ethvm.go:525-559 | A payment clashes with an earlier one exactly when both have one sender, or the earlier moves value to the sender or, value being moved to it too, to the recipient of the later |
| PaymentLevels.RunAgainIffMeets | process/cacheSet.go:184-207 | Of payments that can each be made, one is executed again exactly when it so meets an accepted one before it |
| PaymentLevels.DisjointPaymentsFit | process/cacheSet.go:184-240 | Payments that can each be made and have no party in common meet the conditions of LevelIsSerial, all take effect at once, and the level is their serial execution |
| PaymentLevels.NextPaymentIsLost | process/process_transition.go:238-244 | A sender's next payment is in error on the snapshot of its first, though after the first it would not be |
| PaymentLevels.SendersShareLevels | transcut/transactionMark.go:56-111 | A concrete block of four transactions in which both payments of one sender share a level |
| Linker.JoinTxdata | vm/ethvm/ewasm_linker.go:243-270 | The appends with a length padded to four bytes are the layout, and each refusal has its condition |
| Linker.LayoutParts | vm/ethvm/ewasm_linker.go:254-267 | The layout's parts are found where they were put, and its length field spells the length of final |
| Linker.JoinThenSplit | vm/ethvm/ewasm_linker.go:217-270 | What JoinTxdata joins, SplitTxdata takes apart into the same code and final |
| Linker.SplitThenLayout | vm/ethvm/ewasm_linker.go:217-238 | What was split is the layout of the parts exactly when the magic bytes are right |
| Linker.SplitThenJoin | vm/ethvm/ewasm_linker.go:217-270 | JoinTxdata rebuilds exactly the codes with right magic whose halves are not final and whose length field is at most 16777215 |
| Linker.JoinedIsFinalIff | vm/ethvm/ewasm_linker.go:200-212 | A joined code is itself final exactly when it begins with the module identifier |

## Left out

- The state database, precompiled contracts, keccak, ed25519, uint256 results, block context, the abort flag and time: chosen arbitrarily, or parameters.
- Interpreter.ETHVM.Execute: the results of arithmetic, comparison, environment and account-reading instructions are arbitrary words; what instructions leave in memory is stated by the contracts of the operations it calls and not repeated.
- Interpreter.ETHVM.ExecuteStack: the results of arithmetic and environment instructions belong to uint256 and to the state; operand counts are exact.
- Interpreter.ETHVM.Charge: the slots' values and whether a callee is empty are arbitrary before each instruction, as the state database decides them.
- Values of cached entries have the type their key calls for; the source asserts the type and panics otherwise, the model reads a default.
- Storage keys that equal one of the five reserved keys: keys are a datatype here, so such collisions are not modelled.
- Rollback: `RevertToSnapshot` acts on the state database alone, and so neither the source nor the model takes entries of a failed inner call out of the write set.
- SStore.StateDB.Write: each write becomes the slot's current value at once, as the schedules intend; what the buffering of `opSstore` does to that is stated apart (`BufferedMeteringIsNetIff`).
- SStore.StateDB: the refund counter is a natural number without the bound of uint64, and is not followed through the interpreter's run.
- SELFDESTRUCT's balance moves, which go straight to the state database, outside the write set.
- Commit.AccountDB.CommitAll: logs are left out, and CreateAccount is taken to keep the balance of the account it replaces.
- Commit.AccountDB.CommitInParallel: the state object that is fetched before its account is created is either followed or not for all accounts alike, as the state database, which is not part of this model, decides.
- Conflicts.DetectConflicts: maps are values, so the aliasing of a record's write set with the merged map is not modelled; logs, the list of results and transaction numbering are left out.
- Conflicts.AcceptedTransactionsSerialise: entries overwrite here, pending debits too; `CommitIsSerial` is the statement on accounts, with debits and creations.
- Blocks.ReExecute: gas bookkeeping of transactions executed again is left out; the panic at the missing receipt of an error and the block at an empty commit are one outcome.
- The order that `CacheSet.Less` sorts by: the order of the records is arbitrary.
- Blocks.ExecBenchTxs: of transactions with one hash only one is validated and committed, as in the source; receipts and used gas are left out.
- Marks: marks are natural numbers without the bound of uint32.
- ExecPools.FillUpPoolWithTask: the function run for an item is taken to return, and to report the same for the same item; locks of the read and write sets are left out.
- Transitions.TransitionDb: for payments whose recipient has no code, with a gas price and tip of zero; the gas pool and intrinsic gas suffice. The line that first sets the sender's stored balance to twice what is asked (process/process_transition.go:209) acts on the state database and is left out; with it no sender is too poor.
- Transitions.ReTransitionDb: the same holds.
- Fee settlement, gas pool, receipts and blooms: placeholder constants decide them.
- The EWASM host and audit loop, vm/ewasm and vm/interface: a foreign machine, and near-copies of the files modelled.
- Tracing, logging, profiling, RPC arguments, opcode names: no behaviour of interest.
