# Merak: from control-flow graphs to bytes

A model of the middle and back end of the Merak compiler, with proofs of what
each pass is for. It has three parts, the first two of them joined by lowering.

**Lowered code to EVM bytes.** Source programs are control-flow graphs over
register slots with a small-step semantics and a stack of activations
(`Lowered.dfy`). The compiler is modelled twice. `Codegen.dfy` and `Shuffler.dfy` say
what code each operand, instruction, call, block edge and function has;
`Builder.dfy`, `Generator.dfy` and `Compiler.dfy` are the imperative passes over the
mutable bytecode builder, proved to emit exactly that code. `LabelProofs.dfy` and
`LabelUses.dfy` show that labels are marked once and never left unresolved; `Faults.dfy`
says exactly when there is code, and `Sizes.dfy` how much. Liveness, live
intervals, colouring and layouts (`Liveness.dfy`, `Intervals.dfy`, `Allocator.dfy`) and
dead-instruction elimination (`DeadCode.dfy`) are methods with the source's loops.
`Evm.dfy` is a machine over assembly items, `ByteMachine.dfy` the one that runs bytes
(Ethereum Yellow Paper, Appendix H.2 and section 9.4.3). The simulation goes up
from instructions (`InstructionProofs.dfy`), block edges (`ControlProofs.dfy`,
`EdgeProofs.dfy`) and calls (`CallProofs.dfy`, `Simulation.dfy`) to whole programs
(`ProgramTheorem.dfy`), bytes (`EndToEnd.dfy`) and the optimising pipeline
(`Pipeline.dfy`, `ContractCorrect`).

**SSA construction.** Reverse postorder, iterative dominators, frontiers, phi
placement, renaming with version stacks down the dominator tree, and phi
elimination. The graph facts are stated with paths; the result is that original,
renamed and phi-free code run in step (`SsaCorrect.dfy`, `SsaConstruction.dfy`).

**From source to bytes.** `Lowering.dfy` maps registers to slots and storage variables
to keys and drops what only verification needs. `SourceRuns.dfy` says what functions
mean as they are built, with a stack of activations; `ContractMeaning.dfy` and
`LoweringMeaning.dfy` show that SSA construction, phi elimination and lowering keep this
for whole contracts; `Registers.dfy` says when lowering succeeds; `FromSource.dfy` puts
all passes together (`SourceCorrect`).

**Storage analysis.** Fold and unfold instrumentation, the call graph search and
the checks-effects-interactions check, put together in `StorageAnalysis.dfy`;
`StorageEffects.dfy` ties the call graph to runs.

Values are 256-bit words; `int` is a word with unsigned DIV, LT and GT, constants
are zero-extended from 64 bits, and memory offsets are computed in 64 bits.
Memory is word-addressed. Hash map iteration is `Graphs.AnyOrder`, an arbitrary
order. The builder keeps a ghost list of the items it has emitted; `Valid()`
ties code bytes, labels and pending jumps to it.

## What the main theorem asks of its input

A control-flow graph as the front end builds it: predecessors and successors
agree, terminators jump along edges, and nothing jumps back to the entry
(`Compiler.InputOk`). What else it asks can be checked on the compiled image
(`Compiler.AdmissibleAt`), and each condition shuts out code that is compiled wrongly
or that the language rules out:

- nothing but parameters is read before it is written (`Limits.UnwrittenSlotExact`,
  `Limits.UnwrittenExternalExact` and `Limits.UnwrittenMemoryExact` say when such a slot
  is right: memory must hold 0 for it);
- every stack slot of an else-layout is in the then-layout or is an external
  parameter that is never overwritten (`ControlProofs.ElseEdgeExact` says exactly
  when such an edge is right, `LostSlot.LosingLayouts` and `Limits.ElseEdgeLosesSlot`
  show one that is not);
- no unary minus (`InstructionProofs.NegateExact`);
- no DUP was dropped for its depth (`Shuffler.ShuffleExact`);
- live parameters of internal functions are on the stack
  (`Limits.MemoryParameterExact`);
- internal calls go to internal functions (`Limits.ExternalCalleeExact`) and expect a
  result exactly if one is returned;
- where a call may come back to its own function, everything that lives across it is
  on the stack (`Image.KeptOnStack`), because a second activation uses the same memory
  frame (`Limits.RecursionExact`). Without recursion this asks nothing
  (`Limits.NoRecursion`). The allocator documents that the language forbids recursion
  (codegen/src/analysis/stack_allocator.rs:18-22), but nothing rejects it;
- the code has at most 65536 bytes and frames lie below 2^64.

## Where code and documentation disagree

The model follows the code.

- `ShuffleOp::Swap(n)` is documented as swapping with depth n, but SWAPn is emitted,
  which reaches depth n + 1 (codegen/src/codegen/stack_shuffler.rs:19-20, 123-125).
- Reverse postorder is documented as listing each block after all its
  predecessors (ir/src/lib.rs:22); with loops that is false. What holds is in
  `Traversal.ReversePostOrder`: an edge to an earlier block lies on a cycle.
- Unary minus is meant as 0 - x and computes x - 0
  (codegen/src/codegen/instructions.rs:85-88, 307).
- The storage state analysis reads like a dataflow analysis, but predecessors are
  merged into an empty state, so every entry state is empty
  (analyzer/src/storage.rs:159-162).
- The check for stores after a call is described as following the successors of the
  call's block; it never looks at the call's own block again, so a store in front
  of the call in a loop is missed (analyzer/src/storage.rs:408-427).
- Calls are bracketed by unfolds and folds if they may come back in any way
  (analyzer/src/storage.rs:311-316), but the check looks only at external calls and at
  calls to functions marked reentrant (analyzer/src/storage.rs:390-401): a call that
  leads out of the contract through an unmarked function may be followed by a store
  (`StorageAnalysis.UnmarkedCalleeIsAccepted`).
- The check looks for stores of the function itself (analyzer/src/storage.rs:430-446):
  a call that may come back may be followed by a call of a function that stores
  (`StorageAnalysis.StoringCalleeIsAccepted`).
- Renaming is meant to catch every variable used before its definition
  (ir/src/ssa_ir.rs:1290); a definition on one of several paths is enough for it.

## Model

| member | source | states |
|---|---|---|
| `FromSource.SourceCorrect` | codegen/src/lib.rs:174-317 | Main theorem, from source to bytes. Functions as built go through SSA construction, phi elimination, lowering, the optimiser, code generation and assembly. Invoke one of them: after any number of steps of the functions as built, which call each other on a stack of activations, may fail and may run forever, the bytes match: the result on the untouched stack at the continuation, every storage variable at its key, a halt where the source fails, and progress at a bounded ratio while it runs. Of the sources it is asked that values are returned where they are expected, of the compiled image the conditions listed above |
| `FromSource.CompileSources` | codegen/src/lib.rs:174-317 | On success all functions are lowered from their sources, optimised and linked into the assembled bytes, their code stands one after the other, and none of them has a fault; it fails at the first function that is not lowered, with its error, or because an optimised function has a fault, given the entry labels of all of them |
| `FromSource.LowerSource` | codegen/src/lib.rs:241-317 | A function is lowered if and only if every read of a symbol is reached by an assignment or the symbol is a parameter, and storage has a key for every variable that the code as built loads or stores; otherwise the error says which of the two fails. What is lowered comes from its SSA form without phi nodes through an injective register map |
| `FromSource.LowerSources` | codegen/src/lib.rs:241-317 | All functions are lowered if and only if each can be; otherwise the error is that of the first that cannot |
| `ContractMeaning.RunsMatch` | codegen/src/lib.rs:241-317 | After any number of steps of the functions as built, activation for activation, the lowered program is at the same place with the same values, has returned the same, or has trapped; and it makes progress whenever more instructions have run than a block holds |
| `ContractMeaning.StepMatches` | codegen/src/lib.rs:241-317 | Every step of the functions as built, call, return, failure and jump over a phi node included, is matched by steps of the lowered program, and by none only if its instruction has no code |
| `ContractMeaning.CallStep` | codegen/src/lib.rs:448-479 | A call pushes an activation of the callee with the same arguments in both programs and leaves the caller waiting at the same call, or fails in one and traps in the other |
| `ContractMeaning.ReturnMatches` | codegen/src/lib.rs:498-551 | A return hands the value over to the waiting caller in both programs, which stand behind the call with matching values again |
| `ContractMeaning.CopiesRun` | codegen/src/lib.rs:254-265 | At the end of a block the lowered program runs the copies that stand for phi nodes, and every version and every phi node of a successor has its value |
| `ContractMeaning.JumpMatches` | codegen/src/lib.rs:498-551 | After a jump both programs stand at the start of the target, its phi nodes holding the values of their symbols |
| `ContractMeaning.ArgumentsMatch` | codegen/src/lib.rs:280-291 | Arguments bound to the parameters' slots are the arguments of the parameters, and every other register reads as 0 |
| `LoweringMeaning.PlainMatches` | codegen/src/lib.rs:320-446 | Every instruction but calls computes the same in slots and at storage keys |
| `LoweringMeaning.BodyRuns` | codegen/src/lib.rs:254-265 | Instructions without calls run as their lowered code from any place of a block, where folds, unfolds and assertions have none |
| `Registers.BlockLowers` | codegen/src/lib.rs:254-278 | A block without phi nodes is lowered if and only if every storage variable in it has a key; a register without a slot never occurs |
| `Registers.PhiHasSource` | ir/src/ssa_ir.rs:1311-1333 | Every phi node has a predecessor that ends with a version of its symbol |
| `Registers.InstructionKnown` | codegen/src/lib.rs:320-446 | Every register that an instruction reads after phi elimination is a parameter or is defined by some instruction |
| `Lowering.LowerRegisters` | codegen/src/lowering/type_lowering.rs:20-75 | Every parameter and every defined register, and no other, gets its own slot, the parameters the first ones in their order, and the slots are the numbers below their count, in whatever order the blocks come |
| `Lowering.LowerBlocks` | codegen/src/lib.rs:254-278 | Every block is lowered, in whatever order, or the error is that of some block |
| `Pipeline.ContractCorrect` | codegen/src/lib.rs:174-235 | Main theorem. Optimise, lay out frames, emit and assemble a set of functions, then invoke one of them with any arguments, continuation, stack, memory and storage. For every number of source steps the byte machine reaches a matching state: on return it is at the continuation with exactly the result on the untouched stack and the source's storage, on a trap it has halted, and while the source runs it runs too, at a bounded ratio |
| `Pipeline.CompileContract` | codegen/src/lib.rs:174-235 | From lowered functions to bytes: the optimised functions are the given ones less dead instructions, and on success the bytes are the assembled image in which all of them are linked in their order and none has a fault; failure is a fault of one of them |
| `Pipeline.OptimizeFunctions` | codegen/src/lib.rs:223-226 | Every function is optimised to the fixed point: only removable instructions are gone, nothing removable is left, and the graph is still well-formed |
| `EndToEnd.CompiledBytesCorrect` | codegen/src/lib.rs:174-177 | The compiled bytes follow the lowered program for every number of steps, without the optimiser |
| `EndToEnd.CompileFunctions` | codegen/src/lib.rs:169-177 | On success the code is that of all functions one after the other, labels are unambiguous, frames lie one behind the other from 0x80 on, and no function has a fault; it fails only if some function, in its first-fit allocation and with the entry labels reserved for all, has a value out of reach, a string, a call that cannot be made or too many parameters |
| `ProgramTheorem.ProgramCorrect` | codegen/src/lib.rs:596-710 | Function simulation over whole runs with calls, recursive ones included if what lives across them is on the stack, for an image with any other code around the functions: result or trap agree, the stack below the call and the frames of all functions that the invoked one does not reach are untouched |
| `ProgramTheorem.RunMatches` | codegen/src/lib.rs:596-710 | The simulation relation survives any number of source steps; a running source keeps the machine running at least as many steps |
| `ProgramTheorem.StepMatches` | codegen/src/lib.rs:596-710 | One source step of any kind, call, return and trap included, is matched by the machine and keeps the relation for every activation |
| `ProgramTheorem.CallStep` | codegen/src/codegen/functions.rs:35-91 | A call step: the callee starts with the argument values, the caller waits with its stack part and its frame as they were |
| `ProgramTheorem.InnerReturn` | codegen/src/codegen/functions.rs:68-91 | A return to a waiting caller: it resumes with the result stored and every other live value still at home |
| `ProgramTheorem.InvocationRelated` | codegen/src/lib.rs:636-681 | Entering a function, externally with arguments in memory or internally with arguments on the stack, establishes the relation |
| `Simulation.CallSim` | codegen/src/codegen/functions.rs:51-70 | The emitted call reaches the callee's body with its parameters bound to the argument values and the continuation's offset under its frame |
| `Simulation.ReturnSim` | codegen/src/codegen/terminators.rs:106-134 | A return leaves exactly the returned value, or nothing, on what was below the activation, and lands on the continuation |
| `Simulation.ResumeSim` | codegen/src/codegen/functions.rs:68-91 | Behind the continuation the result is stored; other slots and other frames are unchanged |
| `Simulation.LocalStep` | codegen/src/codegen/terminators.rs:38-104 | An instruction, jump or branch of the running activation is simulated and the callers are kept |
| `StepProofs.InstructionSim` | codegen/src/codegen/instructions.rs:36-172 | Every instruction but calls computes the source's registers and storage and keeps live values at home |
| `StepProofs.StoreKeepsHomes` | codegen/src/codegen/instructions.rs:224-258 | A store gives its slot a home, moves no other live slot, keeps memory copies valid and touches only its own frame |
| `EdgeProofs.JumpSim` | codegen/src/codegen/terminators.rs:38-50 | Following a jump puts the successor's layout on the stack with the right values and enters its body |
| `EdgeProofs.BranchSim` | codegen/src/codegen/terminators.rs:52-104 | Following a branch does so for the block that the condition selects |
| `EdgeProofs.ElseFound` | codegen/src/codegen/terminators.rs:83-87 | The else-layout can be built from the then-layout and the valid memory copies of unwritten external parameters |
| `Activations.CallersKept` | codegen/src/codegen/functions.rs:51-91 | Memory changes inside the running function's frame keep every waiting activation intact, other activations of the same function included |
| `Activations.StackKept` | codegen/src/analysis/stack_allocator.rs:18-22 | A waiting activation whose own function runs again inside it loses nothing that lives across its call, whatever happens to its memory frame |
| `Image.OffsetsApart` | codegen/src/codegen/instructions.rs:20-22 | Different slots of a frame and slots of different frames never share a memory word |
| `CallProofs.CalleeEntry` | codegen/src/lib.rs:652-681 | Call protocol, callee side: from continuation and reversed arguments on the stack the entry code reaches the body with the entry layout holding the parameters' values above the continuation |
| `CallProofs.PrologueRun` | codegen/src/lib.rs:661-679 | SWAP(n) and the entry shuffle turn continuation and arguments into the entry layout above the continuation |
| `CallProofs.SinkContinuation` | codegen/src/lib.rs:661-668 | SWAP(n) exchanges the continuation with the first argument: the stack becomes first, last, ..., second, continuation |
| `CallProofs.ArgumentsRun` | codegen/src/codegen/functions.rs:56-58 | Arguments are pushed left to right, each found although earlier ones deepen the stack |
| `CallProofs.CallJumpReaches` | codegen/src/codegen/functions.rs:60-70 | Pushing the continuation and jumping arrives at the callee with the offset of the continuation's JUMPDEST on top |
| `ControlProofs.JumpMachine` | codegen/src/codegen/terminators.rs:38-50 | A jump's code runs from the current stack to the target layout at the target's JUMPDEST, over any rest of the stack |
| `ControlProofs.BranchMachine` | codegen/src/codegen/terminators.rs:52-104 | A branch's code reaches the then or the else block with its layout, for slot and constant conditions |
| `ControlProofs.ReturnMachine` | codegen/src/codegen/terminators.rs:106-134 | A return's code leaves result and rest and jumps to the continuation, for slot, constant and void returns |
| `ControlProofs.ElseEdgeExact` | codegen/src/codegen/terminators.rs:83-87 | The fall-through shuffle is right if and only if every else slot missing from the then-layout has a memory copy of its value |
| `ControlProofs.ShuffleDelivers` | codegen/src/codegen/stack_shuffler.rs:62-141 | What a shuffle puts on the stack for each target slot: the stack value if there is one, else its memory word |
| `InstructionProofs.OperandRun` | codegen/src/codegen/instructions.rs:181-209 | Pushing an operand pushes its value, from block stack, entry layout, memory or constant, whatever was pushed above |
| `InstructionProofs.StoreRun` | codegen/src/codegen/instructions.rs:224-258 | Storing the top value updates the destination's home: overwritten in place, recorded as new on top, or written to memory |
| `InstructionProofs.InstructionRun` | codegen/src/codegen/instructions.rs:36-172 | The code of an instruction yields the source's next registers, memory and storage above an untouched rest |
| `InstructionProofs.BinaryRun` | codegen/src/codegen/instructions.rs:52-71 | Operand order and the ISZERO-negated comparisons compute the source operator |
| `InstructionProofs.NegateRun` | codegen/src/codegen/instructions.rs:85-89 | The code of unary minus leaves the operand itself |
| `InstructionProofs.NegateExact` | codegen/src/codegen/instructions.rs:85-89 | It negates if and only if the operand is 0 or 2^255 |
| `InstructionProofs.StorageStoreRun` | codegen/src/codegen/storage_ops.rs:30-42 | A storage store writes the operand's value at the key and changes nothing else |
| `Words.ArithmeticIs` | codegen/src/codegen/instructions.rs:285-301 | ADD, SUB and MUL differ from sum, difference and product by a multiple of 2^256 |
| `Words.BitwiseIs` | codegen/src/codegen/instructions.rs:298-299 | AND and OR, at every bit |
| `Words.BitwiseOnBooleans` | codegen/src/codegen/instructions.rs:298-299 | AND and OR are the logical connectives on boolean words |
| `Words.ProductIs` | codegen/src/codegen/instructions.rs:285-301 | MUL is multiplication modulo 2^256 |
| `Words.DivisionIs` | codegen/src/codegen/instructions.rs:285-301 | DIV and MOD are unsigned quotient and remainder, and 0 for a divisor of 0 |
| `Shuffler.PlanShuffle` | codegen/src/codegen/stack_shuffler.rs:62-105 | The planning loops, with the simulated stack, compute the plan that the lemmas are about |
| `Shuffler.ShuffleRun` | codegen/src/codegen/stack_shuffler.rs:62-141 | For every current and target layout, duplicates allowed, the plan replaces the current items by the target's values and keeps the rest |
| `Shuffler.ShuffleExact` | codegen/src/codegen/stack_shuffler.rs:115-141 | The emitted shuffle is right, on any stack and memory, if and only if no DUP was dropped for its depth |
| `Shuffler.ShuffleFits` | codegen/src/codegen/stack_shuffler.rs:62-141 | With at most 17 current and target items together every operation is encodable |
| `Shuffler.DroppedDup` | codegen/src/codegen/stack_shuffler.rs:117-122 | A layout of 16 items and a target of two for which a DUP is dropped without an error |
| `Shuffler.DrainRun` | codegen/src/codegen/stack_shuffler.rs:47-51 | A drain removes exactly the items on top |
| `Shuffler.DrainBelowRun` | codegen/src/codegen/stack_shuffler.rs:55-60 | A drain below the top removes exactly the items under it |
| `Generator.EmitDrain` | codegen/src/codegen/stack_shuffler.rs:47-51 | Appends exactly the drain's code |
| `Generator.EmitDrainExceptTos` | codegen/src/codegen/stack_shuffler.rs:55-60 | Appends exactly the code of the drain below the top |
| `Generator.EmitShuffleOps` | codegen/src/codegen/stack_shuffler.rs:115-141 | The emission loop appends exactly the plan's code, or panics as specified |
| `Codegen.LiteralIs` | codegen/src/codegen/instructions.rs:260-283 | The word of a literal is the only one below 2^64 congruent to the integer modulo 2^64, 1 or 0 for a boolean, and the address itself; this word is what is pushed and what the literal means in both semantics, and only strings have none |
| `Generator.PushConstant` | codegen/src/codegen/instructions.rs:260-283 | Appends one push of the word that the literal denotes, or fails, and does so exactly for strings |
| `Generator.PushOperand` | codegen/src/codegen/instructions.rs:181-209 | Appends exactly the specified operand code, or fails on depth; `Faults.OperandExplained` says when |
| `Faults.OperandExplained` | codegen/src/codegen/instructions.rs:181-209 | An operand has code if and only if it is no string and, if its slot is on the stack, the first place of the slot and the items above it stay below 16 |
| `Faults.StoreExplained` | codegen/src/codegen/instructions.rs:224-258 | A result has a store if and only if its slot is not on the stack at place 16 or deeper |
| `Faults.InstructionExplained` | codegen/src/codegen/instructions.rs:36-172 | An instruction has code if and only if none of its operands, arguments and results is out of reach or a string, and a call is to a known internal function with as many arguments as it has parameters |
| `Faults.ShuffleExplained` | codegen/src/codegen/stack_shuffler.rs:62-137 | A shuffle fails if and only if it has something to drain over a target of more than 16 items |
| `Faults.FunctionExplained` | codegen/src/lib.rs:596-710 | A function has code if and only if it has no fault, and otherwise the error is one of its faults: a value out of reach, a string, a call that cannot be made, or more than 16 parameters |
| `Faults.StackHolds` | codegen/src/codegen/instructions.rs:224-258 | What a block has put on the stack is exactly the stack slots written so far that its layout does not hold, each once |
| `Faults.ShortLayoutsFit` | codegen/src/lib.rs:596-710 | In an allocated function no shuffle is out of reach: terminators fail only for strings and prologues only for the number of parameters |
| `Sizes.FunctionSize` | codegen/src/lib.rs:596-710 | The code of a function whose DUPs are all emitted has exactly as many items as its operands, operations, stores, calls and shuffles need |
| `Sizes.ShuffleSize` | codegen/src/codegen/stack_shuffler.rs:62-137 | A shuffle has no item if the target is there, and else one for every target slot, one more for every slot not on the stack, and two for every old item |
| `Generator.StoreToSlot` | codegen/src/codegen/instructions.rs:224-258 | Appends exactly the specified store code and returns the new block stack |
| `Generator.TranslateStorageStore` | codegen/src/codegen/storage_ops.rs:30-42 | Appends value, key and SSTORE |
| `Generator.TranslateInstruction` | codegen/src/codegen/instructions.rs:36-172 | Appends exactly the specified code of any instruction, calls and storage included |
| `Generator.TranslateCall` | codegen/src/codegen/functions.rs:23-98 | Appends exactly the specified call sequence with a fresh continuation label, or fails as specified |
| `Generator.TranslateTerminator` | codegen/src/codegen/terminators.rs:26-144 | Appends exactly the specified terminator code |
| `Generator.EmitBlock` | codegen/src/lib.rs:628-705 | Appends mark, JUMPDEST, prologue, instructions and terminator of a block |
| `Generator.EmitFunction` | codegen/src/lib.rs:596-710 | Reserves a label per block and appends all blocks in order, exactly the code that the simulation theorem is about |
| `Homes.LiveIsOnStack` | codegen/src/codegen/instructions.rs:181-258 | Before every instruction, each live slot assigned to the stack is on it |
| `Homes.OperandIsDup` | codegen/src/codegen/instructions.rs:192-206 | An operand assigned to the stack never falls through to MLOAD |
| `Homes.EdgeNeverLoads` | codegen/src/codegen/terminators.rs:38-81 | Neither the shuffle of a jump nor the one in front of a branch loads anything from memory |
| `Limits.ElseEdgeLosesSlot` | codegen/src/codegen/terminators.rs:83-87 | An else edge with these layouts loads a memory word nobody wrote |
| `LostSlot.LosingLayouts` | codegen/src/analysis/stack_allocator.rs:59-146 | A function for which the compiler's own liveness and allocation give these layouts to the two sides of its branch |
| `Limits.UnwrittenSlotExact` | codegen/src/lib.rs:661-679 | For a stack slot of an internal function that is read before it is written: without parameters the entry is right if and only if its layout is empty, with parameters if and only if memory holds 0 for every such slot |
| `Limits.UnwrittenExternalExact` | codegen/src/lib.rs:643-651 | For such slots of an external function, which are loaded from memory: the entry is right if and only if memory holds 0 for every one of them |
| `Limits.UnwrittenMemoryExact` | codegen/src/lib.rs:643-681 | A slot that is read first and was assigned to memory is right after either entry if and only if its memory word was 0 before |
| `Limits.MemoryParameterExact` | codegen/src/lib.rs:661-679 | A memory-assigned parameter of an internal function is right after the prologue if and only if memory held the argument before |
| `Limits.ExternalCalleeExact` | codegen/src/lib.rs:643-651 | Entered by an internal call, an external function's entry sets up the callee's frame if and only if there are no arguments |
| `LabelProofs.FunctionMarks` | codegen/src/lib.rs:614-634 | A function's code marks each label at most once and only labels it reserved |
| `LabelProofs.DistinctMarks` | codegen/src/evm/bytecode.rs:82-85 | If no label is marked twice, every label has one offset |
| `LabelUses.FunctionGood` | codegen/src/lib.rs:596-710 | A function pushes only labels it marks itself and entry labels of functions, and no block or label is ever missing |
| `LabelUses.BlocksGood` | codegen/src/lib.rs:624-705 | Every block of the order is emitted with its label marked and jumps only to labels of blocks |
| `Compiler.OrderIsClosed` | codegen/src/lib.rs:604-622 | Every jump target of a block in the order is in the order, so no label lookup fails |
| `Compiler.ComputeFrameSize` | codegen/src/lib.rs:777-785 | The frame has one word per slot number up to the largest, and at least one |
| `Compiler.AssignBases` | codegen/src/lib.rs:228-235 | The first base is 0x80 and each further one the end of the frame before it, so frames do not overlap |
| `Compiler.ReserveEntryLabels` | codegen/src/lib.rs:70-100 | Three fresh labels are reserved for every function in turn, the first of them its entry label, and its parameter list is recorded |
| `Compiler.GenerateFunction` | codegen/src/lib.rs:596-710 | Order, liveness and first-fit allocation are computed and meet what the simulation asks of them, and the function's code is appended |
| `Compiler.EmitFunctions` | codegen/src/lib.rs:174-177 | The code of all functions follows whatever the builder holds, in their order and each behind its entry mark, and they are linked; into an empty builder, every pushed label ends up marked |
| `Compiler.CompiledIsGood` | codegen/src/lib.rs:596-710 | The image of a successful compilation meets every hypothesis of the simulation theorem but the admissibility conditions, each decidable on the image |
| `Liveness.ComputeGenKill` | codegen/src/analysis/liveness.rs:69-95 | Computes the GEN and KILL sets |
| `Liveness.GenKillMeaning` | codegen/src/analysis/liveness.rs:65-95 | A slot is in GEN if and only if the block reads it before writing it, and in KILL if and only if the block writes it |
| `Liveness.AnalyzeLiveness` | codegen/src/analysis/liveness.rs:194-256 | The worklist ends; the result solves both dataflow equations at every block, and a slot is live into a block if and only if some path from there reads it before writing it |
| `Liveness.LeastSolution` | codegen/src/analysis/liveness.rs:218-247 | When nothing is pending the sets are the least solution |
| `Intervals.BfsBlockRanges` | codegen/src/analysis/liveness.rs:120-146 | Reachable blocks, and only they, get index ranges as long as their instructions and terminator, without gaps or overlaps, and a block nearer to the entry comes before one farther away |
| `Intervals.ExtendInterval` | codegen/src/analysis/liveness.rs:98-113 | Extending makes the interval the hull of one more point |
| `Intervals.ComputeIntervals` | codegen/src/analysis/liveness.rs:149-191 | Every interval is exactly the hull of the points where its slot is live at a border, read or written, in whatever order blocks are visited |
| `Intervals.LiveIsCovered` | codegen/src/analysis/liveness.rs:149-191 | A slot live at a point of a reachable block has that point inside its interval |
| `Allocator.ColorSlots` | codegen/src/analysis/stack_allocator.rs:75-109 | Every slot takes the first of 15 positions that no slot of an earlier start, or of the same start and a lower number, holds where its interval starts, and memory if there is none; so overlapping intervals never share a position |
| `Allocator.FirstFitIsUnique` | codegen/src/analysis/stack_allocator.rs:75-109 | The intervals determine every slot's place |
| `Allocator.MemoryNeedsSixteen` | codegen/src/analysis/stack_allocator.rs:97-108 | A slot is in memory only if 16 slots, itself among them and the others each in a position of its own, have intervals that contain its start |
| `Allocator.LowerPositionsTaken` | codegen/src/analysis/stack_allocator.rs:90-95 | Each position below a slot's own is held by another slot whose interval contains its start |
| `Allocator.SpillExact` | codegen/src/analysis/stack_allocator.rs:75-109 | The spill condition of greedy colouring, both directions |
| `Allocator.ColourNeedsPressure` | codegen/src/analysis/stack_allocator.rs:80-95 | Colour c is used only if c+1 intervals meet at one index |
| `Allocator.StackPositionedSlots` | codegen/src/analysis/stack_allocator.rs:133-146 | The layout holds exactly the stack-assigned slots, each once, by rising position |
| `Allocator.LayoutStrict` | codegen/src/analysis/stack_allocator.rs:118-146 | In a reachable block the layout's positions strictly rise and there are at most 15 |
| `Allocator.LiveTogetherApart` | codegen/src/analysis/stack_allocator.rs:75-146 | Two slots live at the same point of a reachable block never share a position |
| `Allocator.Allocate` | codegen/src/analysis/stack_allocator.rs:59-68 | The allocation is the first-fit one for the hull intervals of breadth-first numbered blocks; layouts are the live-in stack slots, at most 15 in a reachable block, and slots live together are apart at every point |
| `Assembler.RoundTrip` | codegen/src/evm/bytecode.rs:98-217 | Disassembling the finished bytes gives back the emitted items with minimal-width pushes and resolved label operands |
| `Assembler.PatchOne` | codegen/src/evm/bytecode.rs:199-209 | Writing two bytes at a pending position changes exactly that label's operand |
| `Assembler.RuntimeStandsAlone` | codegen/src/evm/bytecode.rs:61-67 | The runtime slice of the creation code is byte for byte the runtime assembled on its own at offset 0 |
| `Assembler.RuntimeOperand` | codegen/src/evm/bytecode.rs:196-202 | A jump inside the runtime section gets its target's offset relative to that section |
| `Builder.BytecodeBuilder.MarkRuntimeStart` | codegen/src/evm/bytecode.rs:65-67 | Records the current length |
| `Builder.BytecodeBuilder.NewLabel` | codegen/src/evm/bytecode.rs:75-79 | Labels are never handed out twice |
| `Builder.BytecodeBuilder.MarkLabel` | codegen/src/evm/bytecode.rs:82-85 | The label's position is the current length |
| `Builder.BytecodeBuilder.Emit` | codegen/src/evm/bytecode.rs:88-90 | Appends the opcode's byte |
| `Builder.BytecodeBuilder.Push` | codegen/src/evm/bytecode.rs:98-115 | Appends the shortest push of the value, PUSH1 0 for zero; past 32 significant bytes it appends nothing and reports the panic |
| `Builder.BytecodeBuilder.PushLabel` | codegen/src/evm/bytecode.rs:133-143 | Appends PUSH2 with a placeholder and records the pending jump |
| `Builder.BytecodeBuilder.JumpTo` | codegen/src/evm/bytecode.rs:146-162 | Appends the label push and JUMP |
| `Builder.BytecodeBuilder.JumpiTo` | codegen/src/evm/bytecode.rs:166-180 | Appends the label push and JUMPI |
| `Builder.BytecodeBuilder.Finalize` | codegen/src/evm/bytecode.rs:189-217 | Succeeds if and only if every pushed label is marked, and then the bytes are the assembled items; otherwise names an unresolved label |
| `Builder.OnlyPlaceholdersChange` | codegen/src/evm/bytecode.rs:189-217 | Resolving labels changes no byte outside the placeholders |
| `Builder.PushIsWord` | codegen/src/evm/bytecode.rs:98-126 | A pushed byte string is the push of its big-endian value, in trimmed form |
| `Builder.TrimLeadingZeros` | codegen/src/evm/bytecode.rs:232-238 | Drops exactly the leading zero bytes |
| `Bytes.TrimIsMinimal` | codegen/src/evm/bytecode.rs:232-238 | The trimmed string is the shortest one with the same value |
| `ByteMachine.StepAgrees` | codegen/src/evm/bytecode.rs:189-217 | One step of the byte machine on the finished bytes is one step of the assembly machine |
| `ByteMachine.JumpsAgree` | codegen/src/evm/bytecode.rs:189-217 | The valid jump destinations of the bytes, by the walk of section 9.4.3 of the Yellow Paper, are exactly the emitted JUMPDESTs |
| `ByteMachine.BytesFollow` | codegen/src/evm/bytecode.rs:189-217 | Every assembly run is a byte run to the same state |
| `DeadCode.LoweredCfg.Run` | codegen/src/opt/lowered/dead_code.rs:25-48 | One round keeps exactly the instructions that store, that call, or whose destination something in the function reads, and reports whether it removed any |
| `DeadCode.LoweredCfg.RunToFixedPoint` | codegen/src/opt/mod.rs:56-66 | Terminates; the result differs only by removable instructions, and every instruction left stores, calls, or writes a slot that something left reads |
| `DeadCodeMeaning.SideEffectsAre` | codegen/src/lowering/mod.rs:210-215 | The instructions with side effects are the calls and those that change storage in some state |
| `DeadCode.CollectUsedSlots` | codegen/src/opt/lowered/dead_code.rs:53-85 | The slots read anywhere in the function |
| `DeadCodeMeaning.OptimizationPreservesMeaning` | codegen/src/opt/lowered/dead_code.rs:25-85 | Any number of source steps, calls and storage included, is matched by at most as many steps of the optimised program: same activations and blocks, same storage, same result, same trap; it saves no more steps at a time than a block has instructions |
| `DeadCodeMeaning.StartsMatch` | codegen/src/opt/lowered/dead_code.rs:25-85 | Both programs start an invocation in matching configurations |
| `Traversal.PostorderDfs` | ir/src/lib.rs:32-44 | The search visits exactly the unvisited reachable blocks, each parent behind its children, and an edge leads to a block finished before or back to one that is still under way |
| `Traversal.ReversePostOrder` | ir/src/lib.rs:23-29 | The order lists exactly the reachable blocks once, the entry first; every other block has an earlier predecessor, and every edge leads to a later block unless its target leads back to its source |
| `Graphs.AnyOrder` | ir/src/ssa_ir.rs:863-867 | A set of blocks visited in an arbitrary order, as hash map iteration does |
| `Dominance.Intersect` | ir/src/ssa_ir.rs:827-845 | Terminates, and the result's tree ancestors are exactly the common ancestors |
| `Dominance.ComputeIdom` | ir/src/ssa_ir.rs:797-825 | The new link's ancestors are exactly those common to all processed predecessors |
| `Dominance.VisitKeeps` | ir/src/ssa_ir.rs:755-765 | A visit keeps the four laws of the iteration and can only move a link up |
| `Dominance.ComputeDominance` | ir/src/ssa_ir.rs:744-776 | The iteration terminates, and in the resulting tree the ancestors of a reachable block are exactly the blocks on every path to it |
| `Dominance.AncestorsAreDominators` | ir/src/ssa_ir.rs:744-776 | At the fixed point the tree ancestors of a reachable block are exactly the blocks on every path to it |
| `Dominance.IsDominator` | ir/src/ssa_ir.rs:1392-1414 | The walk up the tree answers true if and only if every entry path passes through the first block |
| `Frontier.ComputeDominanceFrontiers` | ir/src/ssa_ir.rs:857-883 | b is in the frontier of a if and only if a dominates a predecessor of b and does not strictly dominate b |
| `Frontier.SinglePredecessor` | ir/src/ssa_ir.rs:867-869 | Blocks with fewer than two predecessors are in no frontier, so skipping them is right |
| `PhiPlacement.SsaFunction.DefSites` | ir/src/ssa_ir.rs:1037-1090 | The definition sites of every symbol, parameters at the entry |
| `PhiPlacement.SsaFunction.PlacePhisForVariable` | ir/src/ssa_ir.rs:1103-1128 | The blocks given a phi node are exactly the least set closed under frontiers of the definition sites |
| `PhiPlacement.SsaFunction.PhiNodesPlacement` | ir/src/ssa_ir.rs:1097-1101 | Every symbol gets exactly those phi nodes, one per block, in whatever order symbols come |
| `Renaming.RenamingContext.NextVersion` | ir/src/ssa_ir.rs:1354-1359 | Versions are counted per symbol |
| `Renaming.RenamingContext.Push` | ir/src/ssa_ir.rs:1362-1367 | Pushes on one symbol's stack |
| `Renaming.RenamingContext.Pop` | ir/src/ssa_ir.rs:1375-1379 | Pops one symbol's stack and no other |
| `Renaming.RenameBlock` | ir/src/ssa_ir.rs:1175-1252 | Succeeds if and only if no operand is undefined; the block is renamed to the current versions, definitions get fresh ones, and the stacks grow by exactly these |
| `Renaming.FillSuccessorPhis` | ir/src/ssa_ir.rs:1311-1334 | Each successor phi whose symbol has a version gets one source for this block |
| `RenamingSpec.PassCompose` | ir/src/ssa_ir.rs:1148-1171 | Renaming disjoint parts of the tree one after the other is renaming them together |
| `RenamingSpec.AssignmentCompose` | ir/src/ssa_ir.rs:1148-1171 | Single assignment composes over subtrees |
| `RenamingWalk.RecursiveRename` | ir/src/ssa_ir.rs:1148-1171 | A subtree is renamed with each block entered under its link's final environment, every version stack is restored on leaving, and it succeeds if and only if every read is of a defined symbol |
| `RenamingWalk.SsaVariableRenaming` | ir/src/ssa_ir.rs:1132-1146 | The same for the function; the panic on an undefined variable happens exactly if some block reads a symbol not defined on its tree path |
| `RenamingMeaning.EdgeKeepsVersion` | ir/src/ssa_ir.rs:1103-1171 | On every edge, a symbol without a phi in the target has the same current version, or none, at both ends |
| `SsaConstruction.ConstructSsa` | ir/src/ssa_ir.rs:1092-1146 | Succeeds if and only if every symbol that a block reads before assigning it is a parameter or is assigned in some block from which a nonempty path leads there; then every register is defined once |
| `SsaConstruction.DiamondIsRenamed` | ir/src/ssa_ir.rs:1286-1293 | A symbol assigned on one side of a diamond and read behind the join is renamed, although a path to the read never assigns it |
| `Definedness.RenamableIs` | ir/src/ssa_ir.rs:1286-1293 | The renamer's question, asked of phi nodes and blocks up the tree, is the one about paths from assignments |
| `Definedness.AssignedHasVersion` | ir/src/ssa_ir.rs:1103-1171 | Whatever a path brings along has a version: from a dominator or from a phi node |
| `Definedness.PhiIsAhead` | ir/src/ssa_ir.rs:1103-1128 | Every phi node of a symbol stands in a block to which a path leads from an assignment of it |
| `SsaConstruction.SingleAssignmentHolds` | ir/src/ssa_ir.rs:1132-1252 | No two definitions, phi nodes and parameters included, share symbol and version |
| `SsaCorrect.SsaPreservesMeaning` | ir/src/ssa_ir.rs:1092-1335 | In every run, the renamed program and the one after phi elimination are in step with the original: same block, same storage and result, and the current version of each symbol holds its value |
| `SsaCorrect.EnterArrives` | ir/src/ssa_ir.rs:1311-1334 | Entering a block through its phi nodes keeps the correspondence of values |
| `SsaCorrect.CopiesAreCurrent` | codegen/src/lib.rs:553-579 | The copies at the end of a block all read the version current there |
| `PhiElim.EliminatePhiNodes` | codegen/src/lib.rs:553-579 | Every predecessor gets, in some order, exactly the copies its successors' phi nodes owe it, each as often as they ask for it, and the phi nodes are gone |
| `PhiElim.CopiesAreSimultaneous` | codegen/src/lib.rs:558-566 | In whatever order they were collected, the copies act as the simultaneous phi assignment |
| `SsaConstruction.ConstructAndEliminate` | codegen/src/lib.rs:553-579 | From source to phi-free code, under the same condition: control can go where it could, and every run of the result is in the same block, with the same storage and value |
| `Storage.InsertIntoBlock` | analyzer/src/storage.rs:231-370 | In the instrumented block unfold and fold alternate from folded to folded, every access finds its variable unfolded, at a bracketed call all mutable variables are unfolded and then folded at once, and erasing gives back the block. An unfold stands directly in front of an access to its variable or among the unfolds in front of a bracketed call, a fold directly behind a store, among the folds behind such a call, or at the end, and every store is folded at once |
| `Storage.ComputeStorageStates` | analyzer/src/storage.rs:143-178 | The worklist terminates, every entry state is empty, and a block's exit state is what it makes of the empty state if it is reached through blocks that leave something unfolded, and empty if not |
| `Storage.TransferIs` | analyzer/src/storage.rs:180-221 | A block makes unfolded exactly the variables it loads and neither stores nor calls out of the contract after |
| `Storage.InsertFoldUnfold` | analyzer/src/storage.rs:223-371 | The same for every block of the function, in whatever order; nothing else changes |
| `StorageAnalysis.RunsAreDisciplined` | analyzer/src/storage.rs:223-371 | Along any sequence of blocks the discipline holds throughout, and erasing gives the original trace |
| `StorageAnalysis.SameVerdict` | analyzer/src/storage.rs:99-116 | The check says of an instrumented block exactly what it says of the block as written |
| `StorageAnalysis.AnalyzeStorage` | analyzer/src/storage.rs:99-116 | The whole analysis: every block is instrumented for calls that lead out of the contract in any way. A function in the default mode is accepted if and only if, as written, none of its own stores follows an external call or a call to a function marked reentrant in its block or in another block it reaches. What an accepted function can still write behind such a call, itself or through the functions it calls, is said exactly |
| `StorageAnalysis.AcceptedExactForRuns` | analyzer/src/storage.rs:387-403 | In an accepted function some run comes from a call that may come back to a write, that is a store or a call of a function from which calls lead to a store, if and only if such a call leads out through an unmarked function and a store follows it, or a call of a writer follows it, or its block is on a cycle and writes at or before it |
| `StorageAnalysis.UnmarkedCalleeIsAccepted` | analyzer/src/storage.rs:395-401 | A function that calls an unmarked function, which leads out of the contract, and then stores is accepted |
| `StorageAnalysis.StoringCalleeIsAccepted` | analyzer/src/storage.rs:430-446 | A function that makes an external call and then calls a function that stores is accepted, and so is the one that stores |
| `StorageEffects.NoWriterKeepsStorage` | analyzer/src/storage.rs:430-446 | A function from which no chain of calls leads to a store leaves storage as it was, whatever it is called with and however long it runs |
| `CallGraph.ContainsExternalCalls` | analyzer/src/storage.rs:47-96 | The search finds a chain of calls to an external one, or everything it visited is harmless |
| `CallGraph.Analyze` | analyzer/src/storage.rs:21-39 | A function is listed if and only if some chain of internal calls leads from it to an external call |
| `Cei.CheckNoStoresAfterCall` | analyzer/src/storage.rs:413-451 | The worklist terminates and accepts if and only if there is no store behind the call in its block and none in any other block it reaches |
| `Cei.CheckExactForRuns` | analyzer/src/storage.rs:413-451 | For stores, calls of given functions, or both: some run comes from the call to such a write if and only if one stands behind the call in its block or in another block it reaches, which is what the check looks for, or the block is on a cycle and writes at or before the call |
| `Cei.LoopIsAccepted` | analyzer/src/storage.rs:422-427 | A looping block that stores and then calls is accepted although its second round stores after the call |
| `Cei.ValidateCeiPattern` | analyzer/src/storage.rs:373-406 | Only functions in the default mode are checked, and then every external and reentrant call of every block |

## Left out

- Pipeline.ContractCorrect: does not model gas or the 1024-item stack limit; the machine never runs out of either.
- EndToEnd.CompileFunctions: emits the functions only; dispatcher, constructor and CODECOPY sections with their patched offsets are not part of this model. `Compiler.EmitFunctions` and `ProgramTheorem.ProgramCorrect` allow other code before the functions, but only of modelled instructions, which leave out CALLDATALOAD, CODECOPY and RETURN; in the image of `Pipeline.CompileContract` alone, a continuation can only be a JUMPDEST of some function.
- Pipeline.CompileContract: the same functions, without the code around them.
- FromSource.CompileSources: the same functions, without the code around them.
- FromSource.SourceCorrect: an external call fails, because no code is ever generated for one. The relation of storage asks that different variables have different keys.
- Generator.TranslateCall: external call targets and string constants are errors, as in the source, so no external call is ever compiled.
- Shuffler.ShuffleRun: asks that a DUP or SWAP is encodable; `Shuffler.ShuffleExact` says exactly when that matters.
- Compiler.AssignBases: bases are unbounded numbers; a program whose frames pass 2^64 is excluded by `Image.FrameFits`.
- Storage.InsertIntoBlock: folded and unfolded variables are one set; fold and unfold instructions carry no source references.
- Cei.CheckNoStoresAfterCall: decides reachability of blocks and not feasibility of runs, like the source; what the check means for runs is `StorageAnalysis.AcceptedExactForRuns`.
- SsaConstruction.ConstructSsa: phi nodes are a list in front of a block's instructions, where the source keeps them among the instructions and always inserts at the front.
- RenamingWalk.SsaVariableRenaming: the receiver operand of an external call is not renamed by the source and has no operand here; calls are an arbitrary function of callee, arguments and storage.
- Bytes inside a memory word: all accesses of generated code are 32-byte words at multiples of 32.
- Raw byte emission and unsupported jump sizes: only the CODECOPY section uses the first, nothing produces the second.
- Types of registers and numbering of storage variables: keys are a given map.
- Exit layouts, gas and shuffle costs, the debug-only stack depth check: computed but not used by the generated code.
- The loop forest, and the construction of control-flow graphs from syntax trees: graphs are given.
- The check that immutable variables are not written, and the symbol table lookups behind modifiers and locations: modifiers and locations are parameters.
- Parser, name resolution, type checking, refinement types and their solver, ABI strings and selectors.
