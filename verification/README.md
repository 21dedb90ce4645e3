# Verification of the bytecode translator, the script array and the script tools

This project models three parts of the AngelScript JIT and its add-ons in Dafny and proves what they are for.

**The translator** (`FunctionBuilder`, `StackFrame`, `ModuleBuilder`) turns AngelScript bytecode into LLVM IR in two
passes. `Bytecode.dfy` and `Machine.dfy` define the source machine: instructions at DWORD offsets, frames with arguments,
locals, an operand stack and a value register, calls, exceptions and globals. `Blocks.dfy` defines the target: named
blocks of stores and calls, each closed by one terminator, over one DWORD array per frame; it stands for LLVM IR.
`Translation.dfy` states the two passes as functions on the builder's state, and `FunctionBuilder.dfy` is the builder
itself, classes that update the insertion point, the stack pointer, the jump map and the switch map in place, proved to
compute those functions. `Signatures.dfy`, `Frames.dfy` and `FrameRuns.dfy` cover the frame layout; `LabelPass.dfy`,
`BlockPass.dfy` and `BlockPassRun.dfy` the labels, jump tables and blocks; `Operations.dfy`, `BasicSteps.dfy`,
`CallSteps.dfy`, `Positions.dfy`, `StepSimulation.dfy`, `CallSimulation.dfy`, `UncleanSteps.dfy` and `Simulation.dfy` the
simulation, for every program and every run; `StackDepth.dfy` the static stack pointer; `Acceptance.dfy` which code
is translated at all; `Unwinding.dfy` exceptions in chains of calls; `EntryThunk.dfy` the VM entry thunk; `Sample.dfy`
has modules that are compiled, one with a loop and one with a call. `Devirtualization.dfy` and `SystemCall.dfy` are the smaller decisions of the call code.

**The script array** (`CScriptArray`): `ScriptArray.dfy` is the class over a real array, with its in-place moves,
reallocation, self-insertion and reference counting (`References.dfy`), proved against a closed description of what each
operation leaves, takes and drops. `ArraySort.dfy` has the two insertion sorts and `ArrayRuns.dfy` the conservation of
references over whole runs.

**The text tools**: `Preprocessor.dfy` (conditional compilation in `CScriptBuilder`), `Path.dfy` (`GetAbsolutePath`) and
`SplitJoin.dfy` (`StringSplit`, `StringJoin`), with string searching in `Strings.dfy`.

The meaning of each bytecode instruction in the VM is AngelScript's documented one; the VM is not part of the
repository. In particular, the count of a 64-bit shift is one DWORD. In two points the model of the VM follows the
emitted code by definition: locals and the value register are zero when a function starts, and a call without a result
in the register leaves the caller's register as it was. "Same value register" in the theorems below is to be read with
that in mind. An instruction is called clean if it accesses no parameter narrower than a DWORD and is no 64-bit shift
whose count has a DWORD beside it that is not its own or not zero.

Assertions and failing map lookups of the translator are builds that yield no function. What the script engine answers
(instruction sizes, type sizes, virtual tables, tokens, callback results, the current directory) is given data.
`dafny verify dfyconfig.toml` checks the project.

## Where the code and its promise part

Each of these is stated exactly, as the condition under which the code does meet its promise.

- A 64-bit shift loads two DWORDs as its count, where the VM has one. The code is right if and only if the DWORD beside
  the count is the count's own and zero; otherwise it shifts by 64 or more, or loads past an allocation
  (`BasicSteps.WideShiftExact`, `BasicSteps.UncleanShift`).
- Every access to a bool, 8-bit or 16-bit parameter takes a whole DWORD of an allocation that is narrower
  (`UncleanSteps.NarrowFails`, `UncleanSteps.BoolIsNarrow`). Passing such parameters is harmless. These two are all that
  separates the VM from the emitted code: `Simulation.TranslationPreservesMeaning` holds with them as its exact
  condition.
- iTOb and iTOw store the low bits of a variable over themselves, so they truncate it as a DWORD if and only if there is
  nothing to truncate (`BasicSteps.TruncationExact`).
- The program pointer that the entry thunk leaves is null for a function without RET; such a function never ends with Ok
  (`EntryThunk.ThunkPointer`).
- A virtual call looks its function up through the value on top of the stack; when the callee returns on the stack, that
  is the return pointer and not the object (`Signatures.VirtualLookupReadsObject`, `Signatures.VirtualLookupMisreads`).
- `InsertAt` goes on after a refused `Resize`: an array that may not grow any more has elements overwritten instead of
  inserted (`ScriptArrays.InsertSplices`, `ScriptArrays.InsertOverwrites`, `ScriptArrays.InsertArraySplices`).
- `RemoveRange` and `Resize` differ for ranges that pass the end, unless they start at 0 or have nothing to remove
  (`ScriptArrays.RemoveRangeAgrees`, `ScriptArrays.RemoveRangeDiffers`).
- `GetAbsolutePath` never returns for a rooted path that climbs above its root: `rfind` from position -1 searches from
  the end (`Paths.EndsUnlessClimbing`, `Paths.HangsOnRootedClimb`).
- `StringSplit` cuts its last part at a NUL (`SplitJoin.JoinUndoesSplit`, `SplitJoin.NulIsLost`,
  `SplitJoin.SplitUndoesJoin`, `SplitJoin.EarlyDelimiter`) and runs forever with an empty delimiter
  (`SplitJoin.RunsForeverOnEmptyDelimiter`).
- The argument loop of a native call asks for one script parameter too many when a plain C function returns in memory
  (`SystemCalls.LoopStaysInParameters`).
- A null `this` at the VM entry thunk is reported but the implementation runs all the same
  (`EntryThunk.ThunkReportsState`).

## Model

| member | source | states |
|---|---|---|
| Simulation.TranslationPreservesMeaning | src/asllvm/detail/functionbuilder.cpp:238-1233 | for every compiled module, function and start state in which the VM meets no undefined operation: the emitted blocks meet none either if and only if no instruction on the way accesses a narrow parameter and all counts of 64-bit shifts are clean; and then VM and blocks end in exactly the same outcomes (state, returned value, globals, locals, value register), so one ends if and only if the other does |
| Simulation.CleanCodePreservesMeaning | src/asllvm/detail/functionbuilder.cpp:238-1233 | for modules whose code has no 64-bit shift and no access to a narrow parameter, VM and blocks have the same outcomes without further condition |
| Simulation.UncleanFaults | src/asllvm/detail/functionbuilder.cpp:1401-1418 | where the VM runs on past an unclean shift or an access to a narrow parameter, at any depth of calls, the blocks meet an undefined operation |
| UncleanSteps.UncleanStepFaults | src/asllvm/detail/stackframe.cpp:76-125 | the very instruction has no meaning in the emitted code, for every kind of instruction |
| Simulation.SourceOutcomeReached | src/asllvm/detail/functionbuilder.cpp:238-1233 | any outcome the VM reaches by clean instructions is an outcome of the blocks, also when other runs would be undefined |
| Simulation.OutcomeUnique | src/asllvm/detail/functionbuilder.cpp:18-116 | the emitted blocks have at most one outcome from a start state |
| Simulation.Forward | src/asllvm/detail/functionbuilder.cpp:238-1233 | a clean run of the VM from any instruction in any represented frame is matched by the blocks within four times its steps |
| Simulation.Backward | src/asllvm/detail/functionbuilder.cpp:238-1233 | whatever the blocks do from there in a clean run, the VM does: an end of the blocks is an end of the VM |
| BasicSteps.BasicStep | src/asllvm/detail/functionbuilder.cpp:262-1110 | the store emitted for any clean straight-line instruction takes a memory that represents the VM frame to one that represents the frame after the VM's step, at the stack pointer the translator computed |
| BasicSteps.ArithStep | src/asllvm/detail/functionbuilder.cpp:1401-1418 | two's complement arithmetic, division, remainder and bit operations agree in 32 and 64 bits, with variable and constant operands, and so do shifts, in 64 bits for clean counts |
| BasicSteps.WideShiftExact | src/asllvm/detail/functionbuilder.cpp:1038-1040 | the code for a 64-bit shift by less than 64 computes the VM's result if and only if the count is clean, and has no meaning otherwise |
| BasicSteps.UncleanShift | src/asllvm/detail/functionbuilder.cpp:1038-1040 | a frame in which the VM shifts 1 by 2 to 4 and the code for it has no meaning |
| BasicSteps.ConversionStep | src/asllvm/detail/functionbuilder.cpp:1380-1399 | sign and zero extensions and the truncation of 64 bits agree with the VM's conversions |
| BasicSteps.TruncationExact | src/asllvm/detail/functionbuilder.cpp:1005-1006 | the code for iTOb and iTOw changes no memory; the variable is its own truncation exactly when it fits the type |
| Operations.CompareAgrees | src/asllvm/detail/functionbuilder.cpp:1472-1512 | the two selects yield -1, 0 or 1 as the VM compares, signed and unsigned |
| Operations.ConditionAgrees | src/asllvm/detail/functionbuilder.cpp:1444-1454 | an integer comparison with zero decides each of the six conditions as the VM does |
| Operations.AluAgrees | src/asllvm/detail/functionbuilder.cpp:392-401 | each LLVM operation gives the VM's result and is undefined where the VM's is |
| Words.TruncExact | src/asllvm/detail/functionbuilder.cpp:392-401 | division truncates: quotient times divisor plus remainder is the dividend, the remainder is smaller than the divisor and has the sign of the dividend |
| Words.BitwiseBit | src/asllvm/detail/functionbuilder.cpp:392-401 | a bit of a bitwise operation is the operation on the operands' bits there |
| Machine.OverflowExact | src/asllvm/detail/functionbuilder.cpp:392-401 | a division overflows exactly when the quotient is outside the signed range |
| StepSimulation.ConditionalGo | src/asllvm/detail/functionbuilder.cpp:1838-1848 | a conditional branch goes, in one step and in the same memory, to the block of the instruction the VM goes to |
| StepSimulation.SwitchGo | src/asllvm/detail/functionbuilder.cpp:484-498 | the emitted switch reaches the destination of the table entry the VM jumps through |
| StepSimulation.SwitchDefault | src/asllvm/detail/functionbuilder.cpp:484-498 | a value past the table, which has no meaning in the VM, sends the emitted switch to the destination of the last entry |
| StepSimulation.JumpSourceEmpty | src/asllvm/detail/functionbuilder.cpp:248-256 | the checks at labels force an empty operand stack at the end of every instruction that closes a block |
| StackDepth.StaticDepthExact | src/asllvm/detail/functionbuilder.cpp:248-256 | whenever any run, through loops and calls, comes to an instruction, the operand stack is as deep as the compile-time stack pointer there, and within the frame |
| Acceptance.TranslatesExactly | src/asllvm/detail/functionbuilder.cpp:18-116 | for every function and every signatures of callees, a translation exists if and only if the code is acceptable: the depth added up along the code lies between 0 and the frame's operand space before every instruction and is 0 at every label and at the end, every table has an entry, and all slots, callees and tables named exist |
| Acceptance.InstructionAdmitted | src/asllvm/detail/functionbuilder.cpp:238-260 | one instruction, from any state of the builder: translated exactly when the depth is right at a label, the pointer is within the frame and what it names exists; the pointer then moves by the instruction's effect |
| Simulation.MakeCall | src/asllvm/detail/functionbuilder.cpp:1694-1797 | at a call the blocks pass the values the VM passes, and the callee starts in a memory that represents the frame the VM starts it in |
| CallSimulation.AfterStep | src/asllvm/detail/functionbuilder.cpp:2060-2070 | after a call that ended with Ok the blocks go on at the next instruction with the VM's frame; after any other state the caller returns that state |
| Machine.CallDelivers | src/asllvm/detail/functionbuilder.cpp:1760-1766 | behind a call the caller's register has the returned value in its low bits and its own bits above, or is its own without one; globals are the callee's, operands and locals its own |
| Blocks.CallFunctionDelivers | src/asllvm/detail/functionbuilder.cpp:1760-1766 | the same for the emitted call, whose callee writes through the result pointer |
| Blocks.RegisterStored | src/asllvm/detail/functionbuilder.cpp:320-343 | a store to the value register leaves the stored bits below, the old ones above, and everything else alone |
| Blocks.GlobalStored | src/asllvm/detail/functionbuilder.cpp:812-850 | a store to a global is what a load from it finds, and no other global changes |
| CallSimulation.NullObjectStep | src/asllvm/detail/functionbuilder.cpp:1773-1778 | a call on a null object ends the caller with the null pointer state before the callee runs |
| CallSimulation.CheckRuns | src/asllvm/detail/functionbuilder.cpp:2025-2047 | at run time emit_check_boolean returns the state, with nothing else changed, if its condition holds, and goes on in the new block otherwise |
| Unwinding.EveryCallChecked | src/asllvm/detail/functionbuilder.cpp:2060-2070 | every call in the code of a compiled function, wherever it is, is followed by the check of the state it returned and a block that returns it |
| Unwinding.CallerReturnsState | src/asllvm/detail/functionbuilder.cpp:2025-2106 | from any memory, a function whose callee ends in a state other than Ok ends in that state, with the callee's globals and its own locals as they were |
| Unwinding.ExceptionUnwinds | src/asllvm/detail/functionbuilder.cpp:2025-2106 | in a call chain of any depth of the emitted functions a state other than Ok comes out of each function of the chain unchanged, with the globals of the moment it was raised |
| Unwinding.VmExceptionUnwinds | src/asllvm/detail/functionbuilder.cpp:2025-2106 | the same for a call chain of the VM: the emitted function for each of its frames ends in that state, with those globals and without a value |
| EntryThunk.ThunkUnwinds | src/asllvm/detail/functionbuilder.cpp:2087-2106 | when the chain starts at the entry thunk, the exceptions set are exactly that state, after the null pointer state for a null `this` |
| EntryThunk.RetPointerExact | src/asllvm/detail/functionbuilder.cpp:342-342 | what the translator remembers is the address of the last RET, and null exactly when there is none |
| EntryThunk.ThunkPointer | src/asllvm/detail/functionbuilder.cpp:176-183 | the program pointer of a function that ends with Ok is at a RET |
| EntryThunk.ThunkReportsState | src/asllvm/detail/functionbuilder.cpp:118-188 | from any frame, the exceptions added are a null `this` and then the implementation's state unless Ok, in this order; call state, globals and program pointer are the implementation's; the register's low bits are the returned value and the bits above are as before, and without a value it is untouched |
| EntryThunk.OkReturns | src/asllvm/detail/functionbuilder.cpp:320-343 | a function that returns in the register and ends with Ok returns the low bits of its register, as many as its type has; nothing is returned otherwise |
| EntryThunk.ThunkMatchesVm | src/asllvm/detail/functionbuilder.cpp:118-188 | entered through the thunk, a compiled function leaves the VM what a clean run of it in the VM would: exceptions, state, globals, the program pointer at its last RET, and in the low bits of the value register those of the register the function ended with, with the bits above as before; a function that returns nothing in the register, or does not end with Ok, leaves it untouched |
| Sample.SampleCompiles | src/asllvm/detail/functionbuilder.cpp:18-116 | a function with a loop is translated, so the theorems are not about nothing |
| Sample.CallModuleAccepted | src/asllvm/detail/functionbuilder.cpp:1694-1797 | code that pushes an argument and calls is acceptable |
| Sample.CallModuleCompiles | src/asllvm/detail/functionbuilder.cpp:18-116 | a module in which one function pushes 7 and calls another is compiled |
| Sample.ArgumentArrives | src/asllvm/detail/functionbuilder.cpp:1694-1797 | the emitted code of that module ends with 7 in the global variable that the callee stores its parameter to |
| FunctionBuilders.FunctionBuilder.TranslateBytecode | src/asllvm/detail/functionbuilder.cpp:18-116 | the two walks over the bytecode, updating the builder in place, yield exactly the function the simulation is about, for exactly the acceptable code; its blocks each have one terminator, placed last |
| FunctionBuilders.FunctionBuilder.Preprocess | src/asllvm/detail/functionbuilder.cpp:68-72 | the first walk ends in the state that holds all labels and tables |
| FunctionBuilders.FunctionBuilder.PreprocessInstruction | src/asllvm/detail/functionbuilder.cpp:190-236 | one instruction of the first walk, with the same labels, tables and context as the scan function the label theorems are about |
| FunctionBuilders.FunctionBuilder.TranslateInstruction | src/asllvm/detail/functionbuilder.cpp:238-260 | entering the label, the bounds check and the code of one instruction, which succeeds exactly when the instruction can be translated; the stack pointer moves by its effect |
| FunctionBuilders.FunctionBuilder.EmitScriptCall | src/asllvm/detail/functionbuilder.cpp:1694-1797 | popping the arguments one by one, the null check and the state check leave the code and the stack pointer of the specified call |
| FunctionBuilders.FunctionBuilder.EmitSwitch | src/asllvm/detail/functionbuilder.cpp:484-498 | one case per recorded target in order, the last target as default, failure for a missing or empty table |
| FunctionBuilders.StackFrame.PointerTo | src/asllvm/detail/stackframe.cpp:101-125 | parameters by their slot, other offsets counted from the far end of the array, failure outside |
| FunctionBuilders.StackFrame.Push | src/asllvm/detail/stackframe.cpp:58-62 | the pointer moves first, then the value is stored at it |
| FunctionBuilders.StackFrame.Pop | src/asllvm/detail/stackframe.cpp:66-72 | the value at the pointer, which then moves down |
| Frames.LoadVariable | src/asllvm/detail/stackframe.cpp:76-82 | loading through the slot of a variable that is no narrow parameter gives the VM's variable, in 8, 16, 32 and 64 bits |
| Frames.NarrowVariable | src/asllvm/detail/stackframe.cpp:138-152 | nothing modelled can be loaded from the allocation of a narrow parameter or stored to it |
| Frames.StoreVariable | src/asllvm/detail/stackframe.cpp:84-90 | storing through a slot writes that variable and no other variable or operand |
| Frames.StorePushed | src/asllvm/detail/stackframe.cpp:58-62 | a push leaves locals and deeper operands as they were |
| Frames.PushThenPop | src/asllvm/detail/stackframe.cpp:58-74 | a pop returns what the matching push stored and restores the frame |
| FrameRuns.ArrayRefinesValues | src/asllvm/detail/stackframe.cpp:58-125 | any sequence of pushes, pops, tops, loads and stores within bounds gives the same values on the one DWORD array as on separate variables and a list of pushed values |
| FrameRuns.StepRefines | src/asllvm/detail/stackframe.cpp:58-125 | the same for one operation, from any represented state |
| Signatures.LayoutsAgree | src/asllvm/detail/modulebuilder.cpp:64-99 | for every signature, function type, argument vector and parameter slots agree position by position, and there are no other slots |
| Signatures.ArgumentAgrees | src/asllvm/detail/functionbuilder.cpp:1723-1791 | the value popped after r DWORDs is stored by the callee at frame offset -r, with the type the function type gives it |
| Signatures.ParameterLands | src/asllvm/detail/modulebuilder.cpp:64-99 | declared parameter k follows the result and the object in the argument vector and the function type, is read as deep as all before it are long, and its slot is at minus that depth |
| Signatures.ResultLands | src/asllvm/detail/functionbuilder.cpp:1723-1791 | the result comes first: a register of the caller by its address, or the return pointer on top of the stack |
| Signatures.ObjectLands | src/asllvm/detail/functionbuilder.cpp:1723-1791 | the object comes behind the result, and on the stack below a return pointer, in all three layouts |
| Signatures.GetScriptFunctionType | src/asllvm/detail/modulebuilder.cpp:64-99 | the loop that appends parameter types yields the function type: the result or a pointer to it, the object, the declared parameters in order |
| Signatures.ParameterFrame.AllocateParameterStorage | src/asllvm/detail/stackframe.cpp:129-178 | the loop over parameters yields the slot map; the offset ends at minus the DWORDs of all stack values |
| Signatures.ParameterFrame.AllocateParameter | src/asllvm/detail/stackframe.cpp:138-152 | each slot is new, so the emplace succeeds |
| Signatures.VirtualLookupReadsObject | src/asllvm/detail/functionbuilder.cpp:1712-1719 | where the object is among the arguments, and that the value the virtual lookup reads, on top of the stack, is the object exactly when the callee does not return on the stack |
| Signatures.VirtualLookupMisreads | src/asllvm/detail/functionbuilder.cpp:1712-1719 | a signature for which the value on top is the return pointer and the object is below it |
| LabelPass.LabelsExact | src/asllvm/detail/functionbuilder.cpp:190-236 | the first pass inserts a label at exactly the offsets that branches, fall-throughs of conditional branches and table entries make labels |
| LabelPass.JumpTableExact | src/asllvm/detail/functionbuilder.cpp:190-236 | for any code with any number of switches, entry k of a table is the block at the JMPP offset + 1 + 2k, one entry per JMP that follows |
| BlockPassRun.LookupsSucceed | src/asllvm/detail/functionbuilder.cpp:1935-1943 | every label and table the second pass looks up was made by the first; a JMPP has a table exactly when a JMP follows it |
| BlockPassRun.LabelEntered | src/asllvm/detail/functionbuilder.cpp:1945-1957 | a label's block is empty when it is entered, no other label has it, and the block before gets exactly one branch to it if control can fall through and none otherwise |
| BlockPassRun.BlocksWellFormed | src/asllvm/detail/functionbuilder.cpp:1907-1957 | in the finished function every block has exactly one terminator, placed last |
| BlockPassRun.StateBlocksOk | src/asllvm/detail/functionbuilder.cpp:238-260 | what holds between any two instructions: labels ahead are empty, blocks behind are closed, and the current block is open unless control cannot fall through |
| Devirtualization.ResolveVirtualScriptFunction | src/asllvm/detail/functionbuilder.cpp:1850-1881 | with and without devirtualization the resolved call runs, on every object whose class derives from the callee's, what the table lookup gives |
| Devirtualization.GetNonvirtualMatch | src/asllvm/detail/ashelper.cpp:5-24 | the loop finds a function with the callee's declaration, and with unique declarations the one in the callee's slot |
| Devirtualization.StaticResolutionExact | src/asllvm/detail/runtime.cpp:8-13 | static resolution is right for every object if and only if no class below overrides the slot |
| Devirtualization.FinalIsNotOverridden | src/asllvm/detail/functionbuilder.cpp:1859-1867 | final methods and classes without subclasses rule overriding out |
| SystemCalls.ArgumentPopper.PopArguments | src/asllvm/detail/functionbuilder.cpp:1521-1624 | for each calling convention, which slot takes the object, the result pointer and each parameter, and the DWORD it is read at: the return pointer takes DWORDs 0 and 1 when the function returns on the stack and the host does not return in memory, and then the first value in the loop is read at 2, otherwise at 0; the DWORDs popped are all of these |
| SystemCalls.ArgumentPopper.PopArgument | src/asllvm/detail/functionbuilder.cpp:1543-1624 | one round of the loop puts the next value into its slot, which was empty |
| SystemCalls.PlacedAsPassed | src/asllvm/detail/functionbuilder.cpp:1532-1624 | slots filled one to one with the popped values are the ones each calling convention asks for |
| SystemCalls.SlotsAreValues | src/asllvm/detail/functionbuilder.cpp:1543-1624 | slots and popped values correspond one to one, for every convention and any number of parameters |
| SystemCalls.ParametersInOrder | src/asllvm/detail/functionbuilder.cpp:1545-1553 | script parameters stay side by side and in order, at the slots whose types are theirs |
| SystemCalls.GetSystemFunctionType | src/asllvm/detail/modulebuilder.cpp:133-183 | the loop and the insertions yield the native function type |
| SystemCalls.LoopStaysInParameters | src/asllvm/detail/functionbuilder.cpp:1543-1624 | each round that pops a script parameter finds one, if and only if the function is not a plain C function that returns in memory |
| ScriptArrays.CScriptArray.CheckMaxSize | 3rd/scriptarray/scriptarray.cpp:755-775 | accepts exactly the sizes whose allocation fits 32 bits |
| ScriptArrays.CScriptArray.Reserve | 3rd/scriptarray/scriptarray.cpp:612-643 | grows the capacity when it may and never changes the elements |
| ScriptArrays.CScriptArray.Resize | 3rd/scriptarray/scriptarray.cpp:646-652 | to n elements: the first n stay, or defaults come behind them, and nothing happens for a size that does not fit; dropped handles are released |
| ScriptArrays.CScriptArray.ResizeAt | 3rd/scriptarray/scriptarray.cpp:683-752 | defaults come in, or elements go out, at the position; where that is past the end, at the end: the last ones go out or defaults are appended; in place or in a new buffer, with dropped handles released in order |
| ScriptArrays.ResizedIs | 3rd/scriptarray/scriptarray.cpp:683-752 | the specified elements are these, for every array, amount and position |
| ScriptArrays.ResizedToIs | 3rd/scriptarray/scriptarray.cpp:646-652 | resizing without a position cuts or extends at the end |
| ScriptArrays.CScriptArray.RemoveRange | 3rd/scriptarray/scriptarray.cpp:654-680 | a range within the array goes out, one that passes the end takes everything from its start on, and one that starts at or past the end changes nothing; removed handles are released |
| ScriptArrays.RemovedMeans | 3rd/scriptarray/scriptarray.cpp:654-680 | what is left and what is released, for every range |
| ScriptArrays.RemoveRangeAgrees | 3rd/scriptarray/scriptarray.cpp:654-752 | RemoveRange and Resize leave the same elements if and only if the range ends within the array, starts at 0 or is empty, or the array is |
| ScriptArrays.RemoveRangeDiffers | 3rd/scriptarray/scriptarray.cpp:654-752 | a range that passes the end, with what each leaves |
| ScriptArrays.CScriptArray.SetValue | 3rd/scriptarray/scriptarray.cpp:557-590 | the slot takes the value and the others stay; for handles the new object is counted before the old one is released, also when they are the same |
| ScriptArrays.CScriptArray.InsertAt | 3rd/scriptarray/scriptarray.cpp:792-808 | old[..i] + [v] + old[i..] where the array may grow; otherwise element i is overwritten; an index past the end changes nothing |
| ScriptArrays.InsertSplices | 3rd/scriptarray/scriptarray.cpp:792-808 | insertion gives s[..i] + [v] + s[i..] if and only if the grown array may be allocated |
| ScriptArrays.InsertOverwrites | 3rd/scriptarray/scriptarray.cpp:792-808 | an array as long as it may be, whose first element an insertion overwrites |
| ScriptArrays.CScriptArray.InsertArrayAt | 3rd/scriptarray/scriptarray.cpp:810-863 | old[..i] + other + old[i..] where the array may grow, also from the array's own grown buffer; an index past the end or another type changes nothing; all counts are moved |
| ScriptArrays.InsertArraySplices | 3rd/scriptarray/scriptarray.cpp:810-863 | inserting an array, itself included, gives s[..i] + t + s[i..] if and only if the grown array may be allocated or t is empty |
| ScriptArrays.InsertArrayOverwrites | 3rd/scriptarray/scriptarray.cpp:810-863 | an array that may not grow has its elements overwritten from i on, by its own first i elements if it is inserted into itself |
| ScriptArrays.CScriptArray.Assign | 3rd/scriptarray/scriptarray.cpp:357-370 | from another array of the type, the array itself included, the elements are the other array's, with all counts moved; another type changes nothing |
| ScriptArrays.CScriptArray.CopyBuffer | 3rd/scriptarray/scriptarray.cpp:1620-1669 | element k becomes the other array's where that has one and stays otherwise, each handle counted before the old one is released |
| ScriptArrays.OverwrittenMeans | 3rd/scriptarray/scriptarray.cpp:1620-1669 | of a range that is assigned to, the elements in the range are the values and the others as before |
| ScriptArrays.AssignCopies | 3rd/scriptarray/scriptarray.cpp:357-370 | after assignment the elements are those of the other array |
| ScriptArrays.CScriptArray.FromList | 3rd/scriptarray/scriptarray.cpp:373-464 | the array has the list's elements, and for handles the list is zeroed and no count changes; a list whose size is refused stays as it is, and the array gets no buffer |
| ScriptArrays.CScriptArray.Destruct | 3rd/scriptarray/scriptarray.cpp:983-998 | every handle of the range is released once |
| ScriptArrays.CScriptArray.Destroy | 3rd/scriptarray/scriptarray.cpp:592-600 | every handle of the array is released once |
| ScriptArrays.CScriptArray.Reverse | 3rd/scriptarray/scriptarray.cpp:1035-1049 | the swaps leave the elements in reverse |
| ArrayRuns.RunConserves | 3rd/scriptarray/scriptarray.cpp:1620-1669 | over any run of operations on any arrays no object is used after its last reference, and every count is the outside references plus the slots that hold the object |
| ArrayRuns.StepConserves | 3rd/scriptarray/scriptarray.cpp:557-998 | the same for one operation: list construction, SetValue, InsertAt, Resize, RemoveRange, assignment, sorting, reversal or destruction |
| ArrayRuns.EffectSafe | 3rd/scriptarray/scriptarray.cpp:557-1669 | no operation adds or releases a reference to an object that has none left |
| ArrayRuns.NothingLeaks | 3rd/scriptarray/scriptarray.cpp:592-600 | when all arrays are destroyed, counts are the outside references |
| ArraySorting.SortByCallback | 3rd/scriptarray/scriptarray.cpp:1539-1617 | whatever the callback answers, and if it fails, the result is a permutation with everything outside the clamped range untouched; if it follows a strict weak order, the range is sorted and equivalent elements keep their order |
| ArraySorting.InsertByCallback | 3rd/scriptarray/scriptarray.cpp:1575-1603 | one round, with j wrapping past 0: element i goes to one position and the elements between move up |
| ArraySorting.SortPrimitives | 3rd/scriptarray/scriptarray.cpp:1384-1536 | the range ascends or descends as asked, is a permutation, and the rest is untouched; a range past the end changes nothing |
| ArraySorting.MoveKeepsOrder | 3rd/scriptarray/scriptarray.cpp:1575-1603 | an element that moves before greater ones passes none that it is equivalent to |
| Preprocessor.CountersFollowTree | 3rd/scriptbuilder/scriptbuilder.cpp:235-296 | for every well-nested token sequence the two loops with their counters blank exactly the directives and the bodies of undefined blocks |
| Preprocessor.ProcessNodes | 3rd/scriptbuilder/scriptbuilder.cpp:235-296 | the same in front of any tokens and inside any number of open blocks, with the counter back where it was |
| Preprocessor.ExcludeNodes | 3rd/scriptbuilder/scriptbuilder.cpp:783-822 | inside an excluded region every node is blanked and the counter is back where it was |
| Preprocessor.NothingMoves | 3rd/scriptbuilder/scriptbuilder.cpp:235-296 | for every text, nested well or not, the length and every line break stay, and other characters stay or become blanks |
| Preprocessor.ExcludedIsBlank | 3rd/scriptbuilder/scriptbuilder.cpp:783-822 | of an excluded region only white space is left, whatever its text and nesting |
| Preprocessor.StrayEndifStays | 3rd/scriptbuilder/scriptbuilder.cpp:235-296 | an #endif that no #if opened is left in the text, and what follows is processed as at the start |
| Preprocessor.BareIfStays | 3rd/scriptbuilder/scriptbuilder.cpp:235-296 | an #if without a word is left in the text and opens nothing |
| Preprocessor.CScriptBuilder.ProcessScriptSection | 3rd/scriptbuilder/scriptbuilder.cpp:235-296 | the loop over the text, overwriting it in place, yields the specified text |
| Preprocessor.CScriptBuilder.ExcludeCode | 3rd/scriptbuilder/scriptbuilder.cpp:783-822 | the text up to the matching #endif is blanked and the position behind it returned |
| Preprocessor.CScriptBuilder.OverwriteCode | 3rd/scriptbuilder/scriptbuilder.cpp:825-834 | the range becomes blanks but for line breaks, the rest is untouched |
| Paths.GetAbsolutePath | 3rd/scriptbuilder/scriptbuilder.cpp:1074-1110 | the find-and-erase loops end with components evaluated on a stack: for a relative name those of the current directory, whose first one is the root, followed by those of the name; for a name with a leading slash or a drive its own, whatever the current directory; a path that climbs above a drive keeps the ".." that climbs |
| Paths.PartsOfBoth | 3rd/scriptbuilder/scriptbuilder.cpp:1074-1110 | the components of a directory, a slash and a name are those of the directory followed by those of the name |
| Paths.OrdinaryPathKept | 3rd/scriptbuilder/scriptbuilder.cpp:1074-1110 | a path without "." and ".." is its own evaluation |
| Paths.CompletedName | 3rd/scriptbuilder/scriptbuilder.cpp:1074-1110 | `lib/a.as` in `/home/u` is `/home/u/lib/a.as` |
| Paths.EraseDots | 3rd/scriptbuilder/scriptbuilder.cpp:1090-1093 | the loop drops every inner "." and keeps the meaning |
| Paths.EraseParents | 3rd/scriptbuilder/scriptbuilder.cpp:1095-1107 | the loop evaluates every inner ".." |
| Paths.EndsUnlessClimbing | 3rd/scriptbuilder/scriptbuilder.cpp:1095-1107 | the last loop runs forever on exactly the rooted paths that climb above their root |
| Paths.HangsOnRootedClimb | 3rd/scriptbuilder/scriptbuilder.cpp:1095-1107 | `/../lib/script.as` is a path on which the last loop runs forever |
| Paths.ParentErased | 3rd/scriptbuilder/scriptbuilder.cpp:1095-1107 | erasing from the slash before to the first "/../" takes out exactly that component and its parent |
| SplitJoin.JoinUndoesSplit | 3rd/scriptstdstring/scriptstdstring_utils.cpp:23-54 | join(split(s, d), d) = s if and only if no NUL follows the last delimiter |
| SplitJoin.NulIsLost | 3rd/scriptstdstring/scriptstdstring_utils.cpp:23-54 | a string that loses what follows its NUL |
| SplitJoin.SplitUndoesJoin | 3rd/scriptstdstring/scriptstdstring_utils.cpp:23-99 | split(join(ps, d), d) = ps if and only if the last part holds neither delimiter nor NUL and in every other part p the delimiter first occurs in p + d at the end of p |
| SplitJoin.EarlyDelimiter | 3rd/scriptstdstring/scriptstdstring_utils.cpp:23-99 | parts that come back cut differently, because one ends like the delimiter |
| SplitJoin.NoPartsIsLost | 3rd/scriptstdstring/scriptstdstring_utils.cpp:81-99 | joining no parts gives the empty string, which splits to one empty part: no parts do not come back |
| SplitJoin.StringSplit | 3rd/scriptstdstring/scriptstdstring_utils.cpp:23-54 | for a delimiter that is not empty the loop ends with the parts between delimiters |
| SplitJoin.StringJoin | 3rd/scriptstdstring/scriptstdstring_utils.cpp:81-99 | the loop appends parts and delimiters in order |
| SplitJoin.EmptyDelimiterNeverAdvances | 3rd/scriptstdstring/scriptstdstring_utils.cpp:38-47 | with an empty delimiter n rounds add n empty parts and stay at position 0, for every n |
| SplitJoin.RunsForeverOnEmptyDelimiter | 3rd/scriptstdstring/scriptstdstring_utils.cpp:38-47 | the splitting loop goes through any number of rounds if and only if the delimiter is empty |

## Left out

- Floating point: instructions over floats and doubles and fast-math flags; LLVM's rules for them change results.
- Memory: instructions that use addresses held in variables or the registers (PSF, RDSPtr, LoadThisR, WRTV4, RDR4, INCi,
  REFCPY and the like), the object register, ALLOC and FREE; the model's frame has values only.
- Calls the translator leaves to the engine: CALLSYS and CALLINTF inside the simulation (their argument placement is in
  `SystemCall.dfy`), delegates, imported functions, object methods.
- BasicSteps.ConversionStep: iTOb and iTOw are not in the simulation, because what the VM does with the upper bits is not
  shown; `BasicSteps.TruncationExact` says what their code does. NOT is out, since it loads a single bit of a DWORD.
- Instructions the code calls unimplemented or stubs (POW, Cast, CallPtr, SwapPtr, list patterns).
- Division by zero, INT_MIN / -1 and shift counts of the width or more have no meaning in either machine; the code emits
  no check for them.
- The check of the stack change against AngelScript's instruction table after each instruction; it can only fail a build.
- The order of DWORDs in the VM's own frame at the entry thunk; only the count read so far is used.
- Frames.NarrowVariable: the 8-bit and 16-bit loads that sbTOi and the like make of a narrow parameter stay inside it; as
  the same instructions then store a DWORD, the model gives them no meaning either.
- Simulation.TranslationPreservesMeaning: the frame's extra DWORDs are not compared, and a start state has its parameters
  stored already, which `EntryThunk.ThunkMemory` and `Simulation.MakeCall` establish.
- FunctionBuilders.FunctionBuilder.TranslateBytecode: debug information, disassembly and messages have no state here.
- FunctionBuilders.FunctionBuilder.EmitScriptCall: a virtual callee and the entry thunk's own arguments are modelled
  in `Devirtualization.dfy` and `EntryThunk.dfy`.
- ScriptArrays.CScriptArray.FromList: the other operations on an array that got no buffer are not modelled.
- Arrays of value objects, whose elements are constructed and assigned by the engine; sizes of 2^31 or more, ranges whose
  end wraps around, failing allocations, and callbacks that change the array.
- ArraySorting.SortPrimitives: elements are compared as integers, so 64-bit elements, which the code compares by their
  low half, and floats are out; arrays of objects are sorted by std::sort.
- ScriptArrays.CScriptArray.SetValue: the engine ignores a request to count a null handle.
- Find, FindByRef, equality, the caches and garbage collection of arrays.
- Preprocessor.CountersFollowTree: excluded white space that starts with a line break stays as it is; the class of the
  words if and endif is fixed.
- Includes, metadata and file access of the script builder.
- Paths.GetAbsolutePath: the current directory is a parameter.
- The parsing and formatting functions for strings.
