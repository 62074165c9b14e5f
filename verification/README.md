# Anka64: verified models of its compiler, machine and protocols

Anka64 is a capability machine with an operating environment and a small toolchain. This project
models these parts of it in Dafny and proves what they promise over every input, run or schedule.

| part | files | main results |
|---|---|---|
| The AnkaCC64 backend and the instructions it targets | `Machine.dfy`, `StepMachine.dfy`, `Source.dfy`, `Codegen.dfy`, `Compiler.dfy`, `ExprProof.dfy`, `ProgramProof.dfy`, `CompilerTheorem.dfy`, `Encoding.dfy` | a compiled program halts with a value exactly when the source program returns it, and never faults |
| The limits of that backend | `Operands.dfy`, `ScratchLimit.dfy`, `CallPositions.dfy`, `CallTheorem.dfy`, `CallWitness.dfy` | what code computes beyond its scratch registers and supported call positions, and when that is right |
| The concurrent protection fabric | `Protection.dfy`, `Concurrent.dfy`, `FabricLaws.dfy` | two-run noninterference, commit-order memory, revocation wins, exactly which transactions commit |
| The durable authority store and boot latch | `AuthorityStore.dfy` | exactly-once commits, linearizability, two admissions share a boot number exactly when they admit the same reservation |
| Event frames, return authority, interrupts | `EventCore.dfy`, `EventRuns.dfy`, `EventMachine.dfy` | nested events round-trip, returns are last-in first-out, bounded interrupt service |
| The two-slot block controller | `Block.dfy`, `BlockLaws.dfy` | exactly-once, in-order and bounded completion |
| Formats and the link checker | `SRecord.dfy`, `Aom.dfy`, `AomParser.dfy`, `LinkModel.dfy`, `LinkChecker.dfy` | round trips both ways; the checker accepts exactly one code section, the linker's |

Where the source updates state step by step the model is a class with methods, proved against
functions on values (`Emitter.Compiler` against `Code`, `ConcurrentFabric` against
`Concurrent.Run`, `Anka64Core` against `EventCore`, `Controller` against `BlockModel`, and so on). The
laws over runs are lemmas about those functions.

Choices a reader should know:

- 64-bit words are integers in [0, 2^64) with explicit wrap-around; memory is a map of bytes.
- A source program runs under a fuel-indexed big-step semantics; undefined behaviour (a wild pointer, an
  uninitialised read, a stack overflow) is `Stuck`. The main compiler theorem is for programs that are never
  stuck. Call-free expressions are proved for arbitrary pointers, including the faulting ones.
- What the environment decides is a parameter of an operation: the answers of the DMA fabric, the fate of a
  durable commit, pointer-frame checks, whether linked metadata is a well-formed manifest.
- `src/concurrent.rs:13-14` and `210-214` speak of comparing the generation captured at authorization. The
  code never reads it back: it validates the capability again. The model does what the code does.

Some promises fail outside a boundary.

- A call as right operand, or in the pointer of a store. The call replaces the left operand, or the stored
  value. In a returned expression (R0) the replacement is the value of the operand's first call; anywhere
  else (R4) it is, for a callee that only returns a call-free expression, the call's last argument or nothing.
  For a `main` of that shape the compiled program's result is proved, with the exact condition per operator
  under which it is the source's (`CallTheorem.ReturnedOperation`, `ReturnedStore`, `DeclaredOperation`,
  `Operands.AgreeIff`), and three accepted programs are proved miscompiled (`CallWitness`). Nothing is
  claimed for calls nested in two such positions, or for what a larger callee leaves in R4.
- A fourth scratch register, which the compiler refuses: `ScratchLimit.FourthScratchClobbers` gives what the
  code would compute, and for an outer sum or difference exactly when that is right.
- Payloads of 2^32 bytes and more: a committed write is inside its object exactly below that
  (`FabricLaws.CommitsInsideExactly`), with a run that overwrites what lies beyond
  (`FabricLaws.TruncatedLengthFails`).
- S-record addresses wider than 24 bits: exact condition in `SRecord.RoundTripExact`.
- Repeated boot challenges: `AuthorityRuns.SameBootSameAdmission` holds with them, boot numbers are unique
  without them, and `AuthorityRuns.RepeatedChallengeRepeatsBoot` is a run that repeats one.

## Model

| member | source | states |
|---|---|---|
| `CompilerTheorem.CompilerCorrect` | src/anka64/cc.rs:221-301 | for every accepted, never-stuck program whose calls are in supported positions and whose branches fit: the machine halts exactly when main finishes, with v in R0 exactly when a value-returning main returns v, and no cycle ever faults, so no RET trips its authority check |
| `CompilerTheorem.SmallProgramFits` | src/anka64/cc.rs:525-543 | every branch and call of a program of fewer than 2^21 words fits its 22-bit field |
| `CompilerTheorem.MainRuns` | src/anka64/cc.rs:221-241 | the start stub and main, run for some cycles, do what the source does with any given fuel |
| `CompilerTheorem.NoFallThrough` | src/anka64/cc.rs:164-177 | a body that definitely_returns accepts never falls through, in any run |
| `CompilerTheorem.ProgramIsLinked` | src/anka64/cc.rs:534-543 | after call fixup every function's code stands at its table entry and every call reaches its callee's entry |
| `ExprProof.ExprRuns` | src/anka64/cc.rs:377-523 | call-free code with scratch_regs within the registers left puts the source value in dest, gives the source's memory or its fault, and touches only dest, R5 and R6 |
| `ExprProof.CompareRuns` | src/anka64/cc.rs:405-440 | a comparison leaves 1 or 0 in dest as the signed order of the operands decides |
| `ScratchLimit.FourthScratchClobbers` | src/anka64/cc.rs:95-140 | for all operators and operands the code of a op1 (b op2 (c op3 d)) computes a op1 (d op2 (c op3 d)): right whenever op2 cannot tell b from d there, and for + and - outside exactly then, so three is the right bound |
| `ProgramProof.EvalRuns` | src/anka64/cc.rs:377-523 | expressions with calls in the supported positions: value, memory, SP, FP and return stack as the source says |
| `ProgramProof.ArgsRun` | src/anka64/cc.rs:443-467 | pushed arguments are the argument values, in order, whatever calls are nested in them |
| `ProgramProof.InvokeRuns` | src/anka64/cc.rs:243-301 | a call puts argument i in parameter slot i, restores SP and FP, and comes back to the word after CALL with the callee's value and an unchanged return stack |
| `ProgramProof.EpilogueRuns` | src/anka64/cc.rs:294-301 | the epilogue gives back the caller's FP, SP and return point and keeps R0 |
| `ProgramProof.ExecRuns` | src/anka64/cc.rs:303-375 | a statement's back-patched code reaches its end exactly when the source falls through, and returns with the value exactly when the source returns |
| `ProgramProof.ExecWhile` | src/anka64/cc.rs:352-370 | the loop's two branches land on the test and past the body, for every number of iterations |
| `CallTheorem.ReturnedOperation` | src/anka64/cc.rs:392-442 | `return l op r` where r calls: the source returns a op v, the compiled program halts with u op v for the value u of r's first call, and the two agree exactly under the operator's own condition on a, u and v; for a direct call u is v |
| `CallTheorem.ReturnedStore` | src/anka64/cc.rs:481-485 | `return *p = l` where p calls: the source returns a, the compiled program halts with the value of p's first call, and is right exactly when they are equal |
| `CallTheorem.DeclaredOperation` | src/anka64/cc.rs:443-467 | an initialiser l op f(..) where f only returns a call-free expression: the compiled program has c op v for f's last argument c, or a itself when f has none, and is right exactly when the operator cannot tell a from c |
| `CallPositions.RightOperandReturned` | src/anka64/cc.rs:392-396 | the same for a returned operation anywhere in any linked function, with memory, SP, FP and return stack kept |
| `CallPositions.PointerReturned` | src/anka64/cc.rs:481-485 | a returned store through a pointer that calls stores that call's value |
| `CallPositions.RightOperandLeaf` | src/anka64/cc.rs:443-467 | an operation into R4 whose right operand calls a leaf computes with the call's last argument |
| `CallPositions.PointerLeaf` | src/anka64/cc.rs:443-485 | a store into R4's position whose pointer calls a leaf stores the call's last argument |
| `Operands.AgreeIff` | src/anka64/cc.rs:397-440 | two left operands give the same result exactly when: equal for + and -, (a-c)*v divisible by 2^64 for *, the same bits where v has ones or zeros for & and the or, the same surviving bits for shifts, the same side of v for comparisons |
| `Operands.DirectCallAgrees` | src/anka64/cc.rs:397-440 | the same condition when the replacing value is the right operand itself |
| `CallWitness.SumMiscompiled` | src/anka64/cc.rs:392-396 | main returning 1 + f() with f returning 2 is accepted and in range; the source returns 3, the machine halts with 4 |
| `CallWitness.InitialiserMiscompiled` | src/anka64/cc.rs:443-467 | `x = 1 + f(5)` with f returning 2: the source returns 3, the machine halts with 7 |
| `CallWitness.StoreMiscompiled` | src/anka64/cc.rs:481-485 | `*f(&x) = 5` with f returning its argument: the source returns 5, the machine halts with the address of x |
| `Stack.SlotsAreShared` | src/anka64/cc.rs:205-219 | evaluation over variable slots is evaluation over machine memory, slot by slot |
| `Emitter.Compiler.CompileProgram` | src/anka64/cc.rs:221-241 | succeeds exactly on the programs the backend accepts, and then asm is the specified code with calls resolved |
| `Emitter.Compiler.CompileFunction` | src/anka64/cc.rs:243-292 | appends the function's prologue, body and epilogue, or fails when the function is not accepted |
| `Emitter.Compiler.CompileStmt` | src/anka64/cc.rs:303-375 | appends the statement's code with its branches patched |
| `Emitter.Compiler.CompileElse` | src/anka64/cc.rs:337-350 | patches the test over the then-branch and the jump over the else-branch |
| `Emitter.Compiler.CompileExpr` | src/anka64/cc.rs:377-523 | appends the expression's code for any destination |
| `Emitter.Compiler.PatchBranch` | src/anka64/cc.rs:525-532 | replaces one branch's distance and nothing else |
| `Emitter.Compiler.FixupCalls` | src/anka64/cc.rs:534-543 | every recorded call gets the distance to its callee, or the program is rejected |
| `Encoding.PatchIsEncode` | src/anka64/cc.rs:525-532 | patching the word is re-encoding the branch with the new distance |
| `Encoding.EncodedDecodes` | src/anka64/isa.rs:163-206 | a branch decodes to its own distance exactly when that fits 22 bits |
| `Encoding.EncodedDistance` | src/anka64/isa.rs:163-206 | any distance decodes to itself wrapped to 22 bits, read as an integer: the wrap the compiler's model has |
| `Encoding.OverflowBits` | src/anka64/core.rs:1399-1413 | the core's bitwise overflow formulas are the sign conditions the model uses |
| `Machine.CompareFlags` | src/anka64/core.rs:143-158 | the conditions after a compare decide the signed and unsigned order |
| `Memory.LoadStoreSame` | src/anka64/core.rs:1011-1029 | a stored word is loaded back |
| `Memory.LoadStoreOther` | src/anka64/core.rs:1011-1029 | a store leaves every disjoint word alone |
| `StepMachine.UserCore.Execute` | src/anka64/core.rs:990-1195 | one instruction in place: new registers, flags, memory, PC and return stack, or a fault that changes nothing |
| `StepMachine.UserCore.UpdateFlags` | src/anka64/core.rs:1399-1421 | the flag effects of addition, subtraction and logic |
| `StepMachine.UserCore.Run` | src/anka64/core.rs:1424-1432 | the run loop stops at the first halt or fault |
| `FabricLaws.Noninterference` | src/concurrent.rs:22-29 | for every schedule and every set of transactions that do not end committed, deleting their advances leaves memory, table, commits and all other transactions identical; the fault logs differ only by their records |
| `FabricLaws.CommitOrder` | src/concurrent.rs:206-230 | final memory is the initial memory overlaid in commit order with exactly the committed payloads, each once and inside its object |
| `FabricLaws.RevocationWins` | src/concurrent.rs:16-20 | a transaction is committed at the end exactly when it had committed before its object's revocation |
| `FabricLaws.CommitsExactly` | src/concurrent.rs:152-230 | a transaction commits exactly when its capability permits the write and it is advanced three times before the revocation |
| `FabricLaws.TruncatedLength` | src/concurrent.rs:165-168 | an authorized write stays in range exactly when the payload is shorter than 2^32 bytes |
| `FabricLaws.CommitsInsideExactly` | src/concurrent.rs:165-230 | over every run a committed transaction has written inside its object exactly when its payload is shorter than 2^32 bytes |
| `FabricLaws.TruncatedLengthFails` | src/concurrent.rs:165-230 | a run of three advances commits 2^32 + 1 bytes under a one-byte capability and overwrites memory beyond the object |
| `Concurrent.ConcurrentFabric.RunSchedule` | src/concurrent.rs:237-255 | every schedule that commits nothing past the end of memory ends in the specified world and logs its faults in order |
| `Concurrent.ShortIsInRange` | src/concurrent.rs:165-230 | payloads shorter than 2^32 bytes over objects inside memory never commit past its end, in any schedule |
| `Concurrent.ConcurrentFabric.Advance` | src/concurrent.rs:152-159 | one phase of one transaction |
| `Concurrent.ConcurrentFabric.Authorize` | src/concurrent.rs:165-191 | stale and refused requests fault and are logged; the rest are authorized |
| `Concurrent.ConcurrentFabric.Commit` | src/concurrent.rs:206-230 | revalidates, then writes the payload of any length that memory holds |
| `Authority.AuthorityOnlyNarrows` | src/protection.rs:83-121 | over every interleaving a derived capability permits only what its root permits, and only addresses of its object |
| `Authority.RevokedForever` | src/protection.rs:126-155 | after a revocation nothing in the object's derivation tree validates again, even when generations wrap |
| `Protection.ObjectTable.Alloc` | src/protection.rs:70-80 | appends an object; its identifier is its position truncated to 32 bits, which no valid capability names while there are fewer than 2^32 objects |
| `Protection.ObjectTable.Revoke` | src/protection.rs:126-131 | bumps and frees the object, so that no capability to it validates; unknown objects are ignored |
| `AuthorityRuns.ExactlyOnce` | src/anka64/authority_persistence.rs:56-112 | over every interleaving of callers, retries and uncertain commits: no request takes effect twice, equal requests get equal outcomes, Ok means durable, revision growth is the latest sequence number |
| `AuthorityRuns.Linearizable` | src/anka64/authority_persistence.rs:77-112 | the record is what the committed requests give one at a time |
| `AuthorityRuns.SameBootSameAdmission` | src/anka64/authority_persistence.rs:122-140 | over every run, challenges repeated or not: two admissions return the same boot number exactly when they admit the same reservation, and then under the same challenge |
| `AuthorityRuns.BootNumbersUnique` | src/anka64/authority_persistence.rs:122-140 | when challenges never repeat no two admissions return the same boot number, even from an old committed state |
| `AuthorityRuns.SavedContexts` | src/anka64/authority_persistence.rs:141-143 | over every run the current latch accepts a saved context exactly when it admitted the same reservation itself |
| `AuthorityRuns.SavedContextsExpire` | src/anka64/authority_persistence.rs:141-143 | when challenges never repeat, exactly a context saved under the latch's own admission |
| `AuthorityRuns.SameBootSameReservation` | src/anka64/authority_persistence.rs:88-94 | two committed reservations share a boot number exactly when they are the same request |
| `AuthorityRuns.RepeatedChallengeRepeatsBoot` | src/anka64/authority_persistence.rs:122-143 | a possible run that reserves, admits, crashes into the same challenge and admits again: both admissions return boot number 1, and the second latch accepts a context saved under the first |
| `AuthorityRuns.TransactIsBeginFinish` | src/anka64/authority_persistence.rs:99-112 | an uninterrupted transaction is a load step and a commit step |
| `AuthorityStore.PrepareDecides` | src/anka64/authority_persistence.rs:65-94 | commits exactly the enabled, authorized requests and replays exactly the last one |
| `AuthorityStore.Transact` | src/anka64/authority_persistence.rs:96-112 | answer and durable record of one transaction, for every failure of the backend |
| `AuthorityStore.DurableRecord.CompareAndCommit` | src/anka64/authority_persistence.rs:56-63 | replaces the whole record or leaves it, and Ok means replaced |
| `AuthorityStore.BootLatch.Admit` | src/anka64/authority_persistence.rs:127-140 | admits once, with the state's boot number, exactly on admissible evidence |
| `EventLaws.NestedEventsRoundTrip` | src/anka64/core.rs:420-435 | after a trap or interrupt and any handler run with nested events, event return restores words, kinds, flags, return stack, pointer frames, PC, privilege and mask, except what that same syscall was given at its level: the first heap reply it could take, or else the lanes last exported |
| `EventLaws.ReturnRefusedOnlyWhenEmpty` | src/anka64/core.rs:787-817 | in every reachable state event return is refused exactly when no frame is outstanding, and pointer frames are absent while one is |
| `InterruptLaws.BoundedService` | src/anka64/core.rs:853-899 | while a source stays pending at most one delivery of the other happens, none when the turn is its own |
| `InterruptLaws.PendingConserved` | src/anka64/core.rs:824-899 | deliveries and the bit left over account for every post that latched |
| `ReturnLaws.ReturnIsLifo` | src/anka64/core.rs:1071-1195 | a RET succeeds exactly when LR is the word after the latest open CALL of the same event level and its code object's generation is unchanged, and it goes there |
| `OneMachine.CallIsCall` | src/anka64/core.rs:1071-1128 | a CALL of the compiler's target is the event core's CALL, state for state |
| `OneMachine.RetIsRet` | src/anka64/core.rs:1129-1195 | a RET succeeds in one exactly when it does in the other, and leads to the same state |
| `EventMachine.Anka64Core.EventReturn` | src/anka64/core.rs:787-817 | refuses and changes nothing, or consumes one frame and restores its image |
| `EventMachine.Anka64Core.ExportResults` | src/anka64/core.rs:807-811 | exported lanes replace words and clear the kinds of their pairs |
| `EventMachine.Anka64Core.EnterEvent` | src/anka64/core.rs:420-435 | saves the protected image, clears return stack, kinds and mask, and enters supervisor |
| `EventMachine.Anka64Core.WriteSyscallResult` | src/anka64/core.rs:408-417 | exports a lane only to an owned protected syscall event on top that has had no heap reply |
| `EventMachine.Anka64Core.CommitHeapEvent` | src/anka64/core/heap.rs:28-75 | gives a heap reply to the intact syscall event on top exactly when it waits for one and no lane was exported, and never a second time |
| `EventMachine.Anka64Core.WriteRegister` | src/anka64/core.rs:324-328 | a write never confers a pointer kind |
| `EventMachine.Anka64Core.EnableProtectedContext` | src/anka64/core.rs:331-337 | refused exactly while a legacy event is outstanding |
| `EventMachine.Anka64Core.DeliverPending` | src/anka64/core.rs:853-899 | delivers exactly when enabled and pending, the source the arbiter selects |
| `EventMachine.Anka64Core.Trap` | src/anka64/core.rs:1198-1210 | enters a syscall event that returns past the trap |
| `EventMachine.Anka64Core.Call` | src/anka64/core.rs:1071-1128 | mints a return authority and transfers, or faults and changes nothing |
| `EventMachine.Anka64Core.Ret` | src/anka64/core.rs:1129-1193 | validates the authority, then pops it, or faults and changes nothing |
| `BlockLaws.ExactlyOnce` | src/anka64/block.rs:589-614 | handles are distinct, every ticket is finished or held by a busy slot and never both, the queue lists each completed slot once; event_sequence, generations, queue, tickets and live domains account for one another |
| `BlockLaws.ConsumedInOrder` | src/anka64/block.rs:402-462 | the k-th consumed completion is the k-th to complete, with its own request's handle, requester and delegation and its own transaction's status |
| `BlockLaws.BoundedCompletion` | src/anka64/block.rs:333-440 | completion no earlier than max(latency, 1) ticks and no later than two after that; the countdown never underflows |
| `BlockLaws.PairQuiescence` | src/anka64/block.rs:519-557 | the nonterminal count of a pair is the number of its accepted requests not yet finished |
| `BlockLaws.TickIsTick` | src/anka64/block.rs:355-440 | the history the laws speak of follows the controller's own tick |
| `BlockController.Controller.Submit` | src/anka64/block.rs:277-343 | first free slot, with the error cases in the source's order |
| `BlockController.Controller.Tick` | src/anka64/block.rs:355-440 | the three loops over the slots |
| `BlockController.Controller.TickAdvance` | src/anka64/block.rs:392-437 | a terminal transaction completes its slot, destroys its domain and advances the sequence |
| `BlockController.Controller.ConsumeCompletion` | src/anka64/block.rs:448-462 | oldest completion out, slot free, generation up |
| `BlockController.Controller.NonterminalPairRequestCount` | src/anka64/block.rs:533-557 | counts the busy slots of exactly that pair |
| `SRecord.RoundTrip` | src/srec.rs:268-300 | parsing what write printed gives header, data records, count and entry, addresses modulo 2^24 |
| `SRecord.RoundTripExact` | src/srec.rs:277-297 | the records join to the data; addresses and entry survive exactly when they fit 24 bits |
| `SRecord.UnframedIff` | src/srec.rs:141-161 | a record is accepted exactly when it is the framing of its payload |
| `SRecord.CorruptionDetected` | src/srec.rs:145-158 | changing any one decoded byte of an accepted record makes it rejected |
| `SRecord.LineReadsBack` | src/srec.rs:318-338 | a printed record reads back as its payload's meaning |
| `SRecord.HexRoundTrip` | src/srec.rs:238-258 | decoding inverts printing |
| `SRecord.HexDecode` | src/srec.rs:238-249 | the loop decodes digit pairs, or fails on odd length or a bad digit |
| `SRecord.Parse` | src/srec.rs:99-125 | skips blank lines, stops at the first bad one, keeps the last entry |
| `SRecord.MakeRecord` | src/srec.rs:302-360 | count, payload and checksum with a running sum |
| `SRecord.Write` | src/srec.rs:268-300 | header, one record per 32 bytes, count, entry |
| `AomFormat.ParseInvertsLayout` | src/anka64/aom.rs:122-320 | for every byte string, it is accepted as a module exactly when that module is well formed and laid out in it |
| `AomFormat.AcceptedModules` | src/anka64/aom.rs:152-302 | sections ordered and disjoint, names unique, relocations inside code and only to imports |
| `AomFormat.HeaderErrorIff` | src/anka64/aom.rs:152-192 | the overflow-checked header checks are the geometry |
| `AomFormat.ReadSymbolIff` | src/anka64/aom.rs:203-274 | a symbol record is read exactly when it is the layout of a valid symbol with a new name |
| `AomFormat.ReadRelocationIff` | src/anka64/aom.rs:276-302 | a relocation record is read exactly when it is the layout of a valid relocation |
| `AomParser.Parse` | src/anka64/aom.rs:122-320 | the loops compute that function |
| `AomParser.ParseSymbols` | src/anka64/aom.rs:202-274 | every table offset is a 64-bit word inside the file |
| `AomParser.ParseRelocations` | src/anka64/aom.rs:276-302 | every table offset is a 64-bit word inside the file |
| `LinkModel.AcceptedIsUnique` | src/anka64/ankald.rs:580-656 | for every module list at most one code section and one manifest pass |
| `LinkModel.AcceptedIsLink` | src/anka64/ankald.rs:572-656 | the checker accepts exactly the images whose words are the input words, frame words plus the number of earlier modules' frames, or CALLs to the one export with the import's name and signature, with main at 0 |
| `LinkModel.FramesNameThemselves` | src/anka64/ankald.rs:612-634 | in an accepted image each frame instruction's index is the input's plus the earlier frames, and names the linked manifest's frame that begins there |
| `LinkModel.ChecksIff` | src/anka64/ankald.rs:627-651 | a word passes exactly when it is the one a by-name linker puts there |
| `LinkModel.FrameIndexFits` | src/anka64/pointer_frames.rs:80-111 | in validated modules a frame instruction stands at the entry of the frame it names, and its linked index is below the frames linked so far, at most 4096 |
| `LinkModel.ParsedIsValidated` | src/anka64/aom.rs:152-302 | a parsed module meets what the checker relies on, apart from its frame manifest's own validation |
| `LinkChecker.ValidateProtectedLink` | src/anka64/ankald.rs:580-656 | the loops, export map and name set accept exactly the accepted images |
| `LinkChecker.ProtectedGeometry` | src/anka64/ankald.rs:543-570 | succeeds exactly when every module is aligned and within the profile's limits, with the exact sizes |
| `LinkChecker.CollectExports` | src/anka64/ankald.rs:597-607 | succeeds exactly when no name and no address repeats |
| `LinkChecker.CheckCode` | src/anka64/ankald.rs:626-651 | every word of a module passes |
| `LinkChecker.CheckFrames` | src/anka64/ankald.rs:617-625 | every frame of a module is moved with its code |

## Left out

- Syscall, Sysret and Trap expressions of the compiler: they depend on the kernel.
- Calls nested in two unsupported positions, and callees other than leaves of an operation into R4: what is left in R4 depends on the callee's whole body.
- Calls with more than four arguments, and programs with undefined behaviour: no meaning is claimed for them.
- ALU operations XOR and ASR, byte accesses and atomic exchange: the backend never emits them.
- Virtual address maps: code is one object at address 0 and memory one stack region in the compiler proofs; events and calls take the resolved code object as a parameter.
- Pointer-frame instructions, the heap and scoped pointers: only their presence, their veto on CALL, RET and event return, and the reply to a heap call are modelled.
- EventMachine.Anka64Core.CommitHeapEvent: whether the caller owns the heap is a parameter; the source panics where the model refuses.
- Concurrent.ConcurrentFabric.RunSchedule: requires schedules that name existing transactions and commit inside memory, because the source panics otherwise.
- The file backend, sockets and cryptography of the authority store: the backend is its compare-and-commit contract.
- 64-bit exhaustion of the block controller's event sequence and generations: the source panics there, the model counts in naturals.
- The DMA fabric behind the block controller: a transaction moves one phase or faults per advance, and a delegation returns a domain that is not live.
- SRecord.Parse: text is ASCII; a multi-byte character inside a record would stop the source with a panic.
- SRecord.Write: requires at most 65535 chunks and addresses within 32 bits, because the source's counters overflow otherwise.
- AomParser.Parse: version 2 modules and their type evidence are not part of this model.
- LinkChecker.ValidateProtectedLink: module compatibility and the manifest read from linked metadata are parameters.
- Guest execution, the kernel, devices, monitors, the 68000 side, command-line and file plumbing.
