# A verified model of the compiler and its machine

The repository compiles a small C-like language in one pass to a machine with
sixteen byte registers and 256 byte cells, and runs the result in a web
interface. This project models the compiler (register cache, scope chain,
calling convention, jump patching), the machine, the two output formats and the
web interface's readers, and proves that a compiled program does what its source
means.

## How it is built

* **The target.** `Machine` is the interpreter's `step` as a function on states;
  `Emulator` is the same thing with arrays and fields, proved against it.
* **The compiler as functions.** `Codegen` has one function per generator action
  over a value that holds the whole compiler state (descriptor table, symbols,
  offsets, emitted code, open scopes, function table, pending argument lists),
  composed in the order in which the grammar runs the actions.
* **The compiler as it runs.** `RegisterFile`, `SymbolStore`, `ScopeChain` and
  `Generator` are the C modules as classes that update arrays, fields and linked
  lists in place; `Actions` is the grammar driving them. Every method is proved to
  do to the state what the function in `Codegen` says, up to `Actions.Compile`,
  which parses nothing but goes from a syntax tree to the two output files.
* **The source.** `Source` gives programs a meaning by evaluation over memory
  cells. Fuel bounds the depth of calls and loop iterations; a run is `Done`,
  `Timeout` with what was printed so far, or `Fault`.
* **The proof.** `Shape` says what every action keeps, `Execution` runs emitted
  instruction groups, `Relation` relates machine and source states, the `...Sim`
  modules simulate single constructs, `Preservation` is the mutual simulation of
  expressions, calls and statements, and `Correctness` states the result for whole
  programs.
* **Around it.** `Jumps`, `Frames`, `Naming`, `Demand` and `Limits` say where jumps
  lead, where locals live, what names mean, how many registers are needed, and
  where the code as written goes wrong. `Compilability`, `Sizes` and `Admission`
  read off a program's text whether it compiles, how long its code can get and
  that the main theorem applies to it. `Caching` says which reads emit a LOAD and
  `Errors` which error each limit and each mistake gives.
* **The formats.** `Strings`, `Listing`, `Loader`, `Encodings`, `Labels` and
  `Operands` treat the text and the binary file, `Acceptance` and `Layouts` all
  that the readers take and refuse, `Bits` the bitwise instructions. `Sample`
  follows one program to its two files, character for character.

## The main results

1. `Correctness.ProgramPreserved`, `TerminationAgrees`, `DivergenceAgrees`: a
   compiled program halts exactly when the source run ends, with the same output
   and the same globals; if the source never ends, neither does the machine, and it
   prints all the source prints. Functions, recursion to any depth, pointers,
   shadowing, nested calls and byte arithmetic are included.
2. `Correctness.CacheIsInvisible`, `CacheKeepsMemory`, `CacheKeepsRunning`: the
   register cache refines a compiler that loads a global at every read, in halting
   runs and in unfinished ones. `Caching.GlobalRead`, `PrintsEmit`, `RepeatedReads`:
   it does save the LOAD, exactly when a clean copy is cached.
3. `Actions.Compile` with `Operands.OutputsDenoteOneProgram`: the imperative
   compiler writes the text and the bytes of that very program, and both files
   load as programs that run alike from every state. The listing's addresses are
   those its jumps show (`Labels.ShownTargets`), and the readers accept exactly the
   texts and bytes that spell programs (`Acceptance.NumbersAccepted`,
   `RegistersAccepted`, `Layouts.InstructionsAccepted`, `TextsAccepted`,
   `Errors.BinaryAccepted`).
4. `Demand.OutOfRegistersExactly`, `Compilability.ProgramDemand`: compiling an
   expression runs out of registers exactly when the registers in use plus the
   expression's need exceed eleven, and a program compiles exactly when a condition
   on its text holds. `Admission.AdmissiblePreserved` turns the main theorem into
   one whose hypotheses are all read off the text; `Admission.SumWorks` applies it
   to a recursive program.
5. `Jumps` and `Naming`: where every structured jump lands and what every name
   means, with the exact condition under which that is what was intended, and in
   `Limits` three programs for which it is not.

## Hypotheses of the main theorem, and why each is there

* **Every jump that can be reached is right** (`SoundProgram`).
  The count an if statement reports leaves out its condition, so the jump over an
  "else if" falls short of the end. It meets the end only if every condition it
  skips is the address of an undeclared name (`Jumps.ElseIfMeetsEnd`, an
  if-and-only-if). The jump is harmless when it is never reached, so an "else if" is
  allowed after a branch that always returns, and otherwise only where its jump
  meets the end. `Limits.ElseIfMisprints` is a program that prints 1 twice instead
  of once. A loop whose scope holds no instruction yet jumps back to address 0
  instead of its condition; `Jumps.LoopTarget` says exactly when, and
  `Limits.FirstLoopRestarts` is a program that prints for ever.
* **No captured global** (`NoCapture`). Parameters stay in the symbol table after
  their function, so a later function that mentions a global of that name gets the
  parameter's frame slot instead. `Naming.GlobalResolution` says exactly when, and
  `Limits.CapturedGlobalMisread` is a program that prints 0 instead of 5.
* **Undeclared names** are no obstacle: the compiler reports them and goes on, a
  read gives 0 and an assignment does nothing, in the source and on the machine.
* **At most 255 instructions.** Jump targets and return addresses are bytes.
* **Runs that do not fault.** `Source` faults where the source has no meaning of
  its own: the address of an undeclared name, a name that an earlier parameter
  list left in the table, `return` in `main` (which runs a frame suffix without a
  frame), a call of an undeclared function, a pointer to a cell
  that belongs to no live variable (so no store hits a saved register, a pushed
  argument, a saved return address or frame pointer), and a stack that reaches the
  globals.

## Model

| member | source | states |
|---|---|---|
| Correctness.ProgramPreserved | src/yacc.y:40-226 | for every program, every fuel and either caching mode, the compiled image run from the reset state agrees with the source run: same output and same live cells when it ends, still running with the same output when the fuel is used up |
| Correctness.TerminationAgrees | web/app.js:252-302 | the machine halts with an output if and only if the source run ends with it |
| Correctness.DivergenceAgrees | web/app.js:252-302 | a source run that never ends gives a machine that never halts and prints everything the source prints |
| Correctness.CacheIsInvisible | src/c/code/code_expressions.c:32-42 | code generated with cache hits and code that loads at every read halt alike and print alike |
| Correctness.CacheKeepsMemory | src/c/registers.c:56-65 | when the source run ends, both compiled programs halt with the same output and the same value in every global |
| Correctness.CacheKeepsRunning | src/c/registers.c:56-65 | while the source run goes on, both compiled programs are still running and have printed the same |
| Caching.GlobalRead | src/c/code/code_expressions.c:32-42 | a read of a global emits nothing if and only if a register holds a clean copy, and then the first such register is used; otherwise it is one LOAD into the first free register, which is bound to the cell |
| Caching.UncachedRead | src/c/code/code_expressions.c:40-42 | without the cache every read is a LOAD |
| Caching.ReadSucceeds | src/c/registers.c:56-80 | a read succeeds if and only if the global is cached or a register is free |
| Caching.ReadAfterStore | src/c/code/code_expressions.c:151-156 | reading a global just stored emits nothing and gives the register stored |
| Caching.CallKeeps | src/c/code/code_functions.c:185-191 | a call keeps the registers the caller holds with their bindings, drops every other binding and takes the first register then free |
| Caching.StoreKeeps | src/c/registers.c:90-105 | a store drops the bindings to its cell, binds the register stored and keeps every other |
| Caching.StatementForgets | src/c/code/code_expressions.c:53-57 | after every statement but a print, an assignment to a global or to no variable, and a declaration of nothing, the cache is empty |
| Caching.PrintsEmit | src/c/code/code_expressions.c:32-42 | the exact code of any number of consecutive prints of globals |
| Caching.LoadsOfPrints | src/c/code/code_expressions.c:32-42 | that code has one LOAD for every change of global with the cache and one for every print without |
| Caching.RepeatedReads | src/c/code/code_expressions.c:32-42 | for every n, the whole code of a program that prints a global n times: one LOAD with the cache, n without |
| Correctness.HaltsOnce | web/app.js:252-257 | a machine that halts does so in one state only |
| Correctness.ProgramLinked | src/c/code/code_core.c:117-134 | in the image of a compiled program every function has its code at its table address and sees its globals: what the simulation needs holds of every compilation |
| Admission.AdmissibleCompiles | src/yacc.y:223-223 | a program that fits, is short, has sound loops and branches and captures no global, all read off its text, meets every hypothesis of the main theorem |
| Admission.AdmissiblePreserved | src/yacc.y:40-226 | such a program, if its source run never faults, halts on the machine with exactly the outputs it has in the source |
| Admission.PlacedProgramIsSound | src/c/scope.c:100-102 | a syntactic condition on loops and "else if" makes every reachable jump right |
| Admission.SumWorks | src/c/code/code_functions.c:131-192 | a recursive program meets the hypotheses, and its image prints the sum of 1 to 20 as the source does |
| Preservation.Expressions | src/c/code/code_expressions.c:6-93 | an expression's code computes its source value into the returned register, leaves every register in use before unchanged, keeps cache coherence and the frame invariant; without calls it changes no cell, nor sp, fp, ra, r0 |
| Preservation.ArgumentValues | src/yacc.y:66-70 | the argument registers of a call are distinct and hold the argument values from left to right after the last one is computed |
| Preservation.CallRun | src/c/code/code_functions.c:131-192 | a call from any register state returns to the instruction after its J with sp and fp as before, live registers restored and the callee's result in the result register |
| Preservation.Activations | src/c/code/code_functions.c:7-88 | a function entered with its arguments on the stack behaves as the source activation and leaves through the saved ra, with sp, fp and the cells above them intact |
| Preservation.Blocks | src/c/code/code_core.c:137-155 | a block's code behaves as the block, and its pops bring sp back to where it was |
| Preservation.OneStatement | src/yacc.y:153-163 | the code of every statement whose reachable jumps are right behaves as the statement from every matching state |
| Preservation.Ifs | src/yacc.y:112-140 | an if, alone, with an else block or with an "else if" that follows a returning branch, runs the branch its condition selects and reaches the instruction after it |
| Preservation.Whiles | src/yacc.y:142-151 | a loop that is not the first code of its scope runs its body while the condition holds, through any number of iterations |
| CallSim.CallEntrySim | src/c/code/code_functions.c:155-174 | at the callee's entry the saved registers and then the arguments lie below the locals, argument i in its cell, and ra is the address after the J |
| CallSim.CallReturnSim | src/c/code/code_functions.c:176-183 | the pops and reloads after the J restore sp and every saved register |
| CallSim.SavedFacts | src/c/code/code_functions.c:155-161 | the registers a call saves are exactly those in use that hold no argument of it, each once |
| CallSim.SavedCount | src/c/code/code_functions.c:155-161 | their number is the number of operands the caller holds |
| FrameSim.PrefixSim | src/c/code/code_functions.c:7-13 | the prefix saves ra and fp in the two cells above the new frame |
| FrameSim.SuffixSim | src/c/code/code_functions.c:16-23 | the suffix undoes the prefix: it jumps to the saved ra with the saved fp and sp above both |
| FrameSim.ParameterSim | src/c/code/code_functions.c:41-56 | one round of the copying loop puts argument i into local i and touches no other live cell |
| ExpressionSim.GlobalLoadSim | src/c/code/code_expressions.c:32-42 | reading a global gives its value, from the cached copy or from memory; `Caching.GlobalRead` says which |
| ExpressionSim.LocalLoadSim | src/c/code/code_expressions.c:24-30 | reading a local gives the value of the cell fp minus its offset |
| ExpressionSim.UndeclaredSim | src/c/code/code_expressions.c:18-21 | reading a name the table does not have gives 0 and changes nothing else |
| Errors.UndeclaredRead | src/c/code/code_expressions.c:18-21 | it is one AFC of 0 into a free register, and fails only if there is none |
| Errors.UndeclaredAssignment | src/c/code/code_expressions.c:137-141 | assigning to an undeclared name emits the code of the value alone and keeps every binding |
| Preservation.UnassignedSim | src/c/code/code_expressions.c:137-141 | such an assignment leaves the machine in step with the unchanged source state |
| ExpressionSim.BinarySim | src/c/code/code_expressions.c:46-51 | a binary operation replaces the left value by the source operator's result, even if the left register's binding went stale meanwhile |
| ExpressionSim.OpcodeMeaning | src/yacc.y:40-51 | the opcode chosen for each operator computes it on bytes, with strict logical operators and division by zero giving 0 |
| StatementSim.DeclareSim | src/c/code/code_expressions.c:107-116 | a declaration writes its cell exactly at the stack pointer and moves it down |
| StatementSim.StoreGlobalSim | src/c/code/code_expressions.c:151-156 | a store to a global writes its cell and leaves no stale copy of it |
| StatementSim.StoredCopy | src/c/code/code_expressions.c:151-156 | after it the register stored is a clean copy of that global, the only register bound to it |
| StatementSim.PointerStoreSim | src/c/code/code_expressions.c:96-101 | a store through a pointer to a live cell keeps the relation, whatever was cached |
| StatementSim.ReturnSim | src/c/code/code_functions.c:83-88 | a return leaves the frame with its value in r0 |
| Shape.ExpressionShape | src/c/code/code_expressions.c:6-93 | compiling an expression only appends code, changes nothing but the table, and makes exactly one further register in use |
| Shape.ArgumentListShape | src/c/code/code_functions.c:91-117 | an argument list leaves all outer lists and the depth unchanged; its registers are distinct and exactly those newly in use |
| Shape.FunctionCallShape | src/c/code/code_functions.c:131-192 | a call drops its own list, frees its arguments and takes one register |
| Shape.BlockShape | src/c/code/code_core.c:137-155 | leaving a block restores every name and the next offset, and its count is the number of instructions it emitted, pops included |
| Shape.StatementsShape | src/yacc.y:165-168 | a statement list only appends code and only adds names and locals above the present ones |
| Shape.IfShape | src/yacc.y:112-140 | an if statement leaves names, offsets and scopes as they were and nothing cached |
| Frames.BodyFramed | src/c/code/code_expressions.c:107-109 | throughout a body the symbols declared in the function have the offsets 0, 1, 2, ... below the next free one, in order |
| Frames.EntryFramed | src/c/code/code_functions.c:41-72 | a body starts with parameter i at offset i |
| Frames.LocalsApart | src/c/symbol.c:26-34 | two locals declared at the same time have different cells, even when one hides the other |
| Frames.MeetingPoints | src/c/code/code_jumps.c:4-30 | no free register is bound to a cell after an if, a loop or a block, at the start of its blocks, at a loop's condition, at a function's body or at main's |
| Frames.ReturnPoint | src/c/code/code_functions.c:185-191 | nor where a call returns to |
| Naming.GlobalResolution | src/c/code/code_functions.c:47-47 | a global keeps its meaning in a later function if and only if no function before it has a parameter of that name |
| Naming.StageSymbols | src/c/code/code_functions.c:59-80 | after any number of functions the table holds the globals and every parameter declared so far |
| Naming.StageVisible | src/c/symbol.c:37-46 | before any function the table finds the globals the function mentions, and nothing for a name that is neither a global nor an earlier parameter |
| Naming.LookupNewest | src/c/symbol.c:37-46 | a lookup finds a declaration among the newer symbols if there is one |
| Naming.LookupBelow | src/c/symbol.c:37-46 | and otherwise passes over them |
| Linking.FindAgrees | src/c/functions.c:29-50 | the function table finds the function the source means, newest first |
| Jumps.ConditionalTarget | src/yacc.y:112-124 | the conditional jump of a guarded block lands `extra` - 1 instructions past the block, whatever it contains |
| Jumps.ElseTarget | src/yacc.y:132-136 | the jump over an else block lands at the end of the statement |
| Jumps.IfCount | src/yacc.y:116-140 | the count reported for an if statement misses exactly the instructions of its conditions |
| Jumps.ElseIfTarget | src/yacc.y:126-131 | the jump over an "else if" falls short of the end by that number |
| Jumps.ElseIfMeetsEnd | src/yacc.y:126-131 | it meets the end if and only if every condition it skips is the address of an undeclared name, and is never past it |
| Source.ReturnsLeave | src/yacc.y:112-140 | statements that always return by their text never reach their end in any run |
| Jumps.CodelessExpression | src/c/code/code_expressions.c:67-74 | with nothing cached an expression compiles to no code if and only if it is the address of an undeclared name |
| Jumps.LoopTarget | src/c/code/code_core.c:165-180 | the loop-back jump lands on the condition if and only if the scope held an instruction (or the loop begins the program); otherwise at 0 |
| Jumps.LoopExitTarget | src/yacc.y:147-151 | the jump out of a loop lands after the loop-back jump |
| Demand.ExpressionDemand | src/c/registers.c:68-80 | compiling an expression succeeds if and only if its calls are right and the registers in use plus its need are at most eleven |
| Demand.OutOfRegistersExactly | src/c/registers.c:68-80 | with right calls the error is that of exhausted registers if and only if the registers in use plus the need exceed eleven |
| Demand.ArgumentsDemand | src/c/code/code_functions.c:101-117 | the same for argument lists, whose registers stay in use, up to sixteen arguments |
| Demand.AllocExactly | src/c/registers.c:68-80 | allocation fails if and only if all eleven general registers are in use |
| Errors.NestingLimit | src/c/code/code_functions.c:91-98 | sixteen nested calls compile, with seventeen or more the error is that of too many calls |
| Errors.CallErrors | src/c/code/code_functions.c:131-153 | the checks of a call in their order, and exactly when each of its errors is given |
| Errors.FunctionLimits | src/c/functions.c:18-22 | sixteen parameters and sixty-four functions are accepted, one more of either is refused, parameters first |
| Errors.FunctionCountLimit | src/c/functions.c:18-22 | a list of functions right in themselves compiles if and only if they are at most sixty-four |
| Compilability.StatementDemand | src/yacc.y:153-163 | a statement compiles if and only if each expression in it fits the registers and calls declared functions rightly, whatever is cached |
| Compilability.ProgramDemand | src/yacc.y:223-223 | a program compiles, with or without the cache, if and only if a condition on its text holds: number of functions and parameters, declared callees, arities, nesting of calls, register needs |
| Sizes.ProgramLength | src/yacc.y:223-223 | the code of a program is no longer than a bound computed from its text |
| Limits.ElseIfMisprints | src/yacc.y:126-131 | a program with "else if" whose source prints 1 and whose machine prints 1 and 1 |
| Limits.FirstLoopRestarts | src/c/scope.c:100-102 | a program with a loop at the start of a block whose machine starts over instead of looping |
| Limits.CapturedGlobalMisread | src/c/code/code_functions.c:47-47 | a program whose source prints 5 and whose machine prints 0, because a parameter of an earlier function captures the global |
| RegisterFile.Registers.Init | src/c/registers.c:17-29 | clears the eleven general descriptors and reserves the other five |
| RegisterFile.Registers.FindMemory | src/c/registers.c:56-65 | the loop takes the first register that holds a clean copy and is not in use, or reports none |
| RegisterFile.Registers.Alloc | src/c/registers.c:68-80 | the loop takes the first register not in use, forgetting its binding, or reports that there is none |
| RegisterFile.Registers.ForgetMemory | src/c/registers.c:98-105 | the loop drops every binding to an address and nothing else |
| RegisterFile.Registers.ForgetAvailable | src/c/registers.c:108-115 | the loop drops the bindings of exactly the registers not in use |
| RegisterFile.Registers.IsInUse | src/c/registers.c:37-39 | true exactly for the general registers in use |
| SymbolStore.SymbolTable.Get | src/c/symbol.c:37-46 | the backward loop finds the newest symbol of a name |
| SymbolStore.SymbolTable.Restore | src/c/symbol.c:65-70 | the loop removes exactly the symbols above a size |
| ScopeChain.Chain.ProgramAddress | src/c/code/code_core.c:21-31 | the counts of the open scopes add up to the position of the next instruction |
| ScopeChain.Chain.Add | src/c/scope.c:35-51 | the linked list of the current scope grows by one node at its end and every other list stays |
| ScopeChain.Chain.Begin | src/c/scope.c:22-32 | a child scope starts empty at the present position |
| ScopeChain.Chain.Flush | src/c/scope.c:53-76 | the child's list goes behind the parent's: no instruction is lost, repeated or moved; the root stays |
| ScopeChain.Chain.Patch | src/c/code/code_jumps.c:21-30 | overwriting a placeholder changes that instruction only |
| ScopeChain.Chain.ResolveReferences | src/c/scope.c:85-114 | the two passes number the list and replace every reference by the address it denotes |
| ScopeChain.Chain.WriteInstructions | src/c/scope.c:117-127 | walking the list writes the listing of the whole program |
| ScopeChain.Chain.WriteBinary | src/c/scope.c:130-140 | walking the list writes four bytes per instruction in order |
| Generator.Generator.VariableLoad | src/c/code/code_expressions.c:14-43 | does to the whole state what `Codegen.VariableLoad` says |
| Generator.Generator.VariableDeclaration | src/c/code/code_expressions.c:104-124 | the same for a declaration, local or global |
| Generator.Generator.VariableAssignment | src/c/code/code_expressions.c:133-157 | the same for an assignment |
| Generator.Generator.PointerStore | src/c/code/code_expressions.c:96-101 | the same for a store through a pointer |
| Generator.Generator.SaveRegisters | src/c/code/code_functions.c:155-161 | the saving loop saves exactly the registers `Codegen.Saved` lists |
| Generator.Generator.FunctionCall | src/c/code/code_functions.c:131-192 | a call changes the state as `Codegen.FunctionCall` says, or exits with its error |
| Generator.Generator.ParameterLocals | src/c/code/code_functions.c:41-56 | the copying loop over the parameters |
| Generator.Generator.BeginFunction | src/c/code/code_functions.c:59-72 | label, table row, prefix and parameters of a function |
| Generator.Generator.EndBlock | src/c/code/code_core.c:142-155 | pops, restores, flushes and returns the scope's count |
| Generator.Generator.BeginMain | src/c/code/code_core.c:125-134 | main's label, the target of the first jump and the stack set-up |
| Generator.Generator.Successor | src/c/code/code_core.c:170-172 | the instruction after one of the current scope is the next one emitted |
| Actions.Expression | src/yacc.y:40-64 | the actions of an expression, in grammar order |
| Actions.IfStatement | src/yacc.y:112-140 | the actions of an if statement with the counts they pass up |
| Actions.While | src/yacc.y:142-151 | the actions of a loop; the jump goes back to the node after the remembered one, or to NULL |
| Actions.FunctionDefinition | src/yacc.y:197-207 | the actions of a function definition |
| Actions.Compile | src/yacc.y:228-262 | the whole translation from a syntax tree: either the error that stops it, or the listing and the bytes of the resolved program |
| Emulator.Emulator.Execute | web/app.js:268-296 | the switch does to registers, memory, pc and output what `Machine.Effect` says; `Preservation` and `Bits` say what that means |
| Bits.BitwiseSteps | web/app.js:279-281 | one step of BAND, BOR or BNOT leaves, binary digit by digit, the and, the or or the complement of the operands, and changes nothing else |
| Bits.BitwiseLaws | web/app.js:280-281 | what BAND and BOR give of two bytes adds up to their sum |
| Emulator.Emulator.Step | web/app.js:252-302 | one step is `Machine.Step`; the halted flag is set exactly when no instruction is left |
| Emulator.Emulator.Run | web/app.js:304-319 | any number of ticks is that many steps |
| Emulator.Emulator.Reset | web/app.js:214-226 | everything is zero again |
| Loader.ParseAssembly | web/app.js:103-152 | the line loop reads a text as `ParseLines` says, stopping at the first error |
| Acceptance.NumberReads | web/app.js:78-84 | an immediate in decimal or hexadecimal, with or without a minus and an @, in letters of either case, is read as what it means |
| Acceptance.NumbersAccepted | web/app.js:78-84 | a word is read as a number if and only if it is written like one; anything else is a bad number; a missing one is 0 |
| Acceptance.CaseIsBlind | web/app.js:81-81 | capital and small hexadecimal digits mean the same |
| Acceptance.RegistersAccepted | web/app.js:86-97 | a word is read as a register if and only if it is one of its names: a number of any length, sp, fp, ra in any letters, an underscore for r0 |
| Acceptance.RegistersRefused | web/app.js:93-95 | a number past 15 is out of range, any other word a bad register |
| Layouts.InstructionsAccepted | web/app.js:117-146 | the words of a line are read as an instruction if and only if they spell it |
| Layouts.LinesLaidOut | web/app.js:99-117 | indentation, an address, any white space between words, trailing blanks and a comment of either kind do not matter |
| Layouts.LinesPassedOver | web/app.js:108-110 | lines of white space and comments hold no instruction |
| Layouts.LinesOfEnded | web/app.js:105-105 | a text comes apart into its lines whether they end in a line feed or in both characters |
| Layouts.TextsAccepted | web/app.js:103-152 | a text loads if and only if every line does, as the instructions of its lines in order; otherwise the error is that of the first bad line |
| Layouts.BasesAgree | web/app.js:78-84 | a program written with decimal immediates loads as the same program as with hexadecimal ones, and both are the program written |
| Loader.DecodeBinary | web/app.js:154-189 | the loop decodes four bytes at a time, and rejects a bad length or opcode |
| Errors.OpcodeOrder | web/app.js:1-12 | byte k stands for the k-th of the twenty-seven operations, no other byte for any |
| Errors.BinaryAccepted | web/app.js:160-165 | a binary program loads if and only if no opcode byte exceeds 0x1A, with the opcodes its bytes say; otherwise the error names the first that does |
| Encodings.RegisterReads | web/app.js:86-97 | a register's printed name is read back as its number; numbers past 15 are refused |
| Encodings.HexReads | src/c/instruction.c:123-129 | a printed immediate is read back as a number equal to it modulo 256, negative ones included |
| Encodings.ListingReads | src/c/instruction.c:161-249 | the printed program, with addresses and comments, is read back instruction by instruction |
| Labels.ListingAddresses | src/c/instruction.c:164-164 | line k of the listing starts with 0x, k in upper-case hexadecimal digits, four unless more are needed, and a colon |
| Labels.ShownTargets | src/c/scope.c:85-114 | the operand a jump shows is the address on the line it leads to |
| Labels.ListingComments | src/c/instruction.c:152-158 | an instruction with a comment ends in it after a percent sign; one without has no percent sign |
| Labels.EntriesTitled | src/c/code/code_functions.c:59-65 | every function starts with a NOP that carries its name, cut to 127 characters |
| Labels.MainTitled | src/c/code/code_core.c:125-128 | the jump after the globals leads to a NOP that says main |
| Sample.SampleListing | src/c/instruction.c:161-249 | the whole listing of a program that prints a global twice, character for character |
| Sample.SampleBytes | src/c/instruction.c:251-286 | and its bytes |
| Encodings.BinaryReads | src/c/instruction.c:267-286 | the bytes of a program decode to its instructions |
| Encodings.OutputsAgree | src/c/instruction.c:98-286 | for every list of encodable instructions, text and bytes load as programs with the same step from every state |
| Encodings.ShownProgramReads | web/app.js:199-212 | a decoded program is read back from the text shown for it if and only if every register it names exists |
| Encodings.CanonicalSteps | web/app.js:167-183 | clearing the operands the machine ignores changes no step |
| Encodings.DecodedAreBytes | web/app.js:160-165 | every decoded operand is a byte |
| Operands.ProgramFits | src/c/instruction.c:98-120 | every register operand of a compiled program is one of the sixteen, so both outputs can carry it |
| Operands.OutputsDenoteOneProgram | src/yacc.y:251-255 | the text file and the binary file of a compiled program run alike for any number of steps from any state, and the binary one is the image of `Correctness` |
| Strings.NumeralRoundTrip | web/app.js:78-84 | a printed numeral is read back as its value |

## Left out

- Lexing, operator precedence and the LALR tables: the model starts from the syntax tree; numbers are integers, which the lexer delivers as 32-bit values.
- Reading and opening files, error texts, memory allocation failure: an exit of the compiler is an error value. After an unknown variable the compiler reports and goes on, as the model does.
- The VHDL output, which prints the same four bytes of each instruction, and the hardware it is for.
- The web page: buttons, timers, rendering, highlighting, and the text and comment kept beside a parsed instruction for display. The ticks of `run` are modelled, their delay is not.
- Upper and lower case of letters beyond ASCII in assembly text; numbers beyond 2^53, which JavaScript rounds.
- Emulator.Emulator.Step: requires an instruction that names existing registers; on any other the interpreter reads or writes undefined array slots. `Machine.Step` leaves such a machine as it is.
- The capacity of the symbol table (256 symbols), which the program does not check.
- The temporary-slot functions of symbol.c and register_clear_memory, which nothing calls.
- Jumps beyond byte addresses: programs of more than 255 instructions are outside the main theorem.
- Correctness.ProgramPreserved: says nothing of a source run that faults, and excludes reachable jumps over an "else if", loops that start their block and captured globals, on which the code is wrong, as explained above.
- Preservation.OneStatement: requires that every jump that can be reached is right, because the code of an "else if" after a branch that runs to its end, and of a loop that starts its scope, does something else; `Jumps.ElseIfMeetsEnd` and `Jumps.LoopTarget` are the exact conditions.
- Preservation.Ifs: requires of an "else if" that the branch before it always returns or that its jump meets the end, for the same reason.
- Preservation.Whiles: requires an instruction in the loop's scope before it, for the same reason.
- Nothing is said about how many steps the machine takes, only that it takes at least as many as the fuel.
