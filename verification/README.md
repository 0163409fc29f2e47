# Verified models of the YAL back end and of the Lemon parser generator

Two translation chains of the repository.

**From a checked program to the value its host receives.** The byte code generator walks
a tree once, appends 32-bit instruction words to a buffer, takes registers from a free
list threaded through an array, and patches jumps in place when the code they skip is
complete. The builder writes the module to a file; the virtual machine runs the code where
it lies in that file, over one block of memory that holds every frame's registers, with a
three-word record in front of each. The proof goes in five steps:

1. `Semantics` says what a program means; `CodeGen` gives the code of every tree as a
   function of the register pool; `CompilerCorrect` proves by mutual induction over
   expressions, calls, statements, blocks, conditions and loops that running that code on
   a machine of frames (`Machine`) computes the meaning. Recursion and loops are bounded
   only by the fuel of the meaning, so the statement covers every terminating run.
2. `Generator` is the generator itself, a class whose visits append, patch, push and pop;
   each visit is proved to leave every earlier word alone and to add exactly the code
   that `CodeGen` gives. `RegisterAllocation` is its allocator, proved to be `RegisterPool`.
3. `FlatStack` and `Interpreter` are the machine over its real memory. The loop is proved
   to follow `Machine` step for step and for whole runs; it overflows exactly when the
   block is smaller than the largest state of the run (`Interpreter.WordsNeeded`).
4. `BinaryFile` is the file format between the two sides, as a round trip.
5. `EndToEnd` composes 1 and 3, and `Deployment` all of it: generate every function, write
   the module, load the file, find the function by its name, call it.

A program has three meanings (`Semantics.Reading`): as it is written; as its compiled code
runs, which tests and promotes differently; and as far as the two are sure to agree. The
compiler theorems are about the second one, `Readings` relates the three, and
`Misreadings` shows compiled programs on which the first two differ.

What the operators mean is stated apart from both sides: `Operators` has the laws of arithmetic
of the cell that each dispatched instruction leaves. `CodeExists` says which functions have
code, by counts over their trees and the literal limits; `Sample` is a program with code for
every kind of statement and expression, `CrowdedScope` a function that has none.

**From a grammar to an accepted input.** `ParserGenerator` runs the generator's steps in
their order, each in its own module:

1. `FirstSets` computes nullable symbols and first sets exactly.
2. `Lr0` builds the LR(0) states by the generator's mutual recursion.
3. `Links` records which configurations pass their follow sets on to which, and
   `FollowSets` propagates those sets to their least solution.
4. `Actions` collects each state's shifts, reduces and accept, sorts them and resolves their
   conflicts by precedence.
5. `CompressTables` introduces default reductions and shift-reduces, and follows chains of
   rules with one symbol and no code.
6. `TableWriter` sorts and numbers the states, packs their rounds with `ActTab`, and writes
   the arrays.

`LrDriver` is the shift-reduce driver, sound for any tables that agree with the automaton.
`GeneratedTables` proves that tables in which the driver finds what the passes made of each
state's actions do agree. `ParserGenerator.GenerateTables` promises that such tables are
written when every round found a place in the packed table, exactly if the last row has an
action for a token. `UnitRules` proves that step 5 ends and meets no failed assertion unless
the rules it skips lead in a circle. `GenerateAndParse` puts the driver on top: whatever it
accepts is derived from the start symbol, at the end of the input.
`ShortOffsets` is a small grammar that meets every condition but that last one.

`Lalr` proves that the look-ahead sets of steps 1 to 3 are exactly the LALR(1) ones: a token
is in the set of a configuration iff some way down from the start symbol leads to its state
and leaves the token to come next. `Completeness` is the other half of the driver: if the
grammar is LALR(1), every sentence is accepted when the stack and the limit on reduces are
large enough, and is never refused as an error however small they are.

`MSort` is the list sort the generator relies on, `StateTable` its hash table of states, and
`DynamicArrays` the machine's growing buffer.

## Findings

Each of these is a property that one would expect and that the code does not have, with
the exact condition under which it does.

- A signed constant that fits the instruction word is loaded without its sign: it arrives
  intact exactly when it is not negative (`CompilerRelation.InlineConstantLoaded`). The
  lexer has no sign, but its 32-bit conversion wraps, so the literal `4294967295` is the
  constant -1 and arrives as 65535 (`Literals.NegativeLiteral`, `Literals.LiteralLoadable`).
- A tested 64-bit value is read by its low half only: right exactly when it is zero or its
  low half is not (`CompilerRelation.ConditionReadRight`). The compiled
  `if (v) return 1; return 0;` is wrong for the literal 4294967296
  (`Misreadings.WideTestMisread`).
- A 32-bit value where a 64-bit one is asked for is read with whatever the high half of its
  register holds: right exactly when that half is its extension (`Registers.PromotedRead`).
  The compiled `y; return x + k;` of a 64-bit `x` and 32-bit `k` adds the high half of the
  unrelated literal `y` (`Misreadings.StaleSumMisread`).
- The generator resolves a name in the whole table of a scope, also where the name is
  declared further down. It finds the variable the source means exactly when no scope
  further in lists the name (`Checking.ResolvedAlike`). The compiled
  `if (k) { return x; var x = 1; }` of a function of `x` returns the constant `k`, which the
  test left in the inner variable's register (`Shadowing.EarlyUseMisread`).
- LOAD_FUNCTION is refused exactly for an index above the number of functions, so the index
  equal to it is accepted, and the pointer it loads is then to no function
  (`Interpreter.AcceptedWithoutFunction`). Generated code always stays below
  (`CallTargets.LoadsKnownFunctions`).
- The writer does not check the combined size of the static regions; the loader finds the
  functions exactly when it fits 16 bits (`BinaryFile.FunctionsFound`). Two regions of 40000
  words each are accepted, and the loader then looks for the functions inside the first
  region and refuses the file (`BinaryFile.LongRegionsLost`).
- The search for a place in the action table can fall off its end and the round is then laid
  over others. It finds a place whenever the least and greatest lookahead of the round add
  up to at most the number of symbols (`ActTab.Headroom`); if it finds none, a round is read
  exactly iff nothing else was read at its offset and an earlier one iff none of its slots
  is written (`ActTab.MisplacedExact`). For every number of terminals, six rounds with twenty
  nonterminals do that to the empty table, inserted in the generator's order and with tokens
  in safe rounds only (`ActTab.CrowdedRun`).
- The offsets of trailing rows without token actions are not written, but the driver asserts
  that every row has one. They are complete exactly when the last row has an action for a
  token (`TableWriter.ReportTable`, `ParserGenerator.GenerateTables`). For the grammar
  `S ::= X. X ::= X G D. X ::= . G ::= g. D ::= .`, whose states meet all conditions and
  whose rounds all find a place, there is no offset for the state reached after the token `g`
  (`ShortOffsets.ReportShort`, `ShortOffsets.AfterToken`), although `g` is a sentence.
- A token without associativity is to be refused where it follows itself. If the state
  otherwise does nothing but reduce by one rule, the error is in its list but the state is
  left before the token is looked at (`CompressTables.LeftIff`, `CompressTables.ErrorPassedOver`).
- A parameter has its register before the variables of its scope are registered, and the
  registration asks for it again; that is refused when no register is left. So a function
  whose scope lists exactly 250 variables has code only if the last one listed is not a
  parameter (`CodeExists.SetupCode`, `CodeExists.FunctionHasCode`). The function of one
  parameter and 249 local variables has code when its parameter is called `A`, and none when
  it is called `z` (`CrowdedScope.LastParameterRefused`).
- A dynamic array counts elements when it checks its growth, and bytes modulo 2^32 when it
  asks for memory: the buffer holds its capacity exactly when the bytes fit 32 bits
  (`DynamicArrays.BufferHoldsCapacity`).

## Conventions

Instruction words, registers and file bytes are integers with their ranges and
wrap-around written out; a register is a cell of two 32-bit halves, and 32-bit
instructions leave the high half alone. A `Throw`, `Failed`, `false` or `None` stands for
an exception, a failed assertion or undefined behaviour. Bitwise operators and shifts work
on the bits of their operands without a sign, as the instructions do. `hide` statements
only keep definitions out of a proof's way.

## Model

| member | source | states |
|---|---|---|
| Bytecode.UnpackThree | lib/yalvm/yalvm_bytecode.h:268-281 | opcode and three registers packed into one word are all read back |
| Bytecode.UnpackTwo | lib/yalvm/yalvm_bytecode.h:254-266 | opcode and two registers are read back |
| Bytecode.UnpackOne | lib/yalvm/yalvm_bytecode.h:243-252 | opcode and one register are read back |
| Bytecode.UnpackDstValue | lib/yalvm/yalvm_bytecode.h:283-307 | register and 16-bit value are read back modulo 2^16, and with their sign when they have 16 signed bits |
| Bytecode.UnpackValue | lib/yalvm/yalvm_bytecode.h:309-330 | the same for the 24-bit value of a jump |
| Registers.DualSelected | lib/yal/bytecode/bytecode_utils.cpp:73-277 | the instruction chosen for a binary operator and type computes that operator, through the views the interpreter uses |
| Registers.CompareSelected | lib/yal/bytecode/bytecode_utils.cpp:279-411 | the same for comparisons, with a boolean in the low half; what the comparison means is `Operators.Ordered` |
| Registers.SingleSelected | lib/yal/bytecode/bytecode_utils.cpp:27-71 | the same for negation and complement |
| Operators.Ordered | lib/yalvm/yalvm_ctx.c:531-750 | the cell left by each comparison says how the two numbers shown are ordered: Gt iff the difference is positive, Lt iff it is negative, and so on for all six, for every type |
| Operators.Exchanged | lib/yalvm/yalvm_ctx.c:531-680 | less is greater with the registers exchanged, and likewise for the other two |
| Operators.RingOperators | lib/yalvm/yalvm_ctx.c:235-345 | the bits left by sum, difference and product are those of the numbers, modulo the width, signed or not; 32-bit instructions keep the high half |
| Operators.Division | lib/yalvm/yalvm_ctx.c:346-508 | quotient and remainder are left iff the divisor is not zero and the quotient fits; quotient times divisor plus remainder is the dividend, the remainder is smaller than the divisor and has the sign of the dividend |
| Operators.BitByBit | lib/yalvm/yalvm_ctx.c:408-445 | and, or and exclusive or, for each bit of the two registers |
| Operators.Shifts | lib/yalvm/yalvm_ctx.c:459-484 | a shift has a meaning iff it is by less than the width; it multiplies by the power of two modulo the width, or divides by it and drops the rest |
| Operators.Inverses | lib/yalvm/yalvm_ctx.c:384-458 | a number and its negative add up to zero modulo the width, a number and its complement to all ones |
| Registers.PromotedRead | lib/yalvm/yalvm_ctx.c:235-240 | a 32-bit value is seen unchanged through the 64-bit view of its register iff the high half is its extension |
| Registers.HighHalfIsStale | lib/yalvm/yalvm_ctx.c:216-224 | a 32-bit load leaves the high half alone, so every 32-bit or boolean value can sit in a register with any high half; it is that value at 64 bits iff the half is the extension |
| RegisterPool.AllocationIsPeakOptimal | lib/yal/bytecode/registerallocator.cpp:19-131 | after any legal history owners are injective, allocation of a new owner fails iff all 250 registers are live, and the reported count is the peak number live, or 1 |
| RegisterPool.AllocateInv | lib/yal/bytecode/registerallocator.cpp:19-43 | allocating keeps live, recycled and unused registers a partition |
| RegisterPool.DeallocateInv | lib/yal/bytecode/registerallocator.cpp:45-61 | so does giving an owner's register back |
| RegisterPool.DeallocateTemporaryInv | lib/yal/bytecode/registerallocator.cpp:103-111 | and releasing a live temporary |
| RegisterAllocation.RegisterAllocator.constructor | lib/yal/bytecode/registerallocator.cpp:9-12 | the free list starts as all registers in ascending order |
| RegisterAllocation.RegisterAllocator.Reset | lib/yal/bytecode/registerallocator.cpp:113-125 | the array is relinked and the pool is empty |
| RegisterAllocation.RegisterAllocator.Allocate | lib/yal/bytecode/registerallocator.cpp:19-43 | the array's free list stays acyclic and exact; register returned and new state are those of the pool |
| RegisterAllocation.RegisterAllocator.Deallocate | lib/yal/bytecode/registerallocator.cpp:45-61 | the register is linked in at the head of the free list and its owner forgotten |
| RegisterAllocation.RegisterAllocator.AllocateTemporary | lib/yal/bytecode/registerallocator.cpp:88-101 | an anonymous register is taken from the same list |
| RegisterAllocation.RegisterAllocator.DeallocateTemporary | lib/yal/bytecode/registerallocator.cpp:103-111 | a live anonymous register is given back |
| RegisterAllocation.RegisterAllocator.RegisterForVariable | lib/yal/bytecode/registerallocator.cpp:73-86 | the owner's register, or the unused value |
| RegisterAllocation.RegisterAllocator.MaxRegisterCount | lib/yal/bytecode/registerallocator.cpp:127-131 | the high-water mark of the pool |
| Checking.ResolvedAlike | lib/yal/bytecode/bytecodegenerator.cpp:398-408 | whole-table lookup finds the declared variable iff no inner scope lists the name |
| Shadowing.EarlyUseMisread | lib/yal/bytecode/bytecodegenerator.cpp:398-408 | for every small constant and every argument: a compiled function whose block reads the parameter before it declares a variable of that name returns what it says iff the argument is the constant |
| CodeGenPool.GenExprOwners | lib/yal/bytecode/bytecodegenerator.cpp:1028-1100 | code for an expression leaves all owners' registers as they were, and its result is its symbol's register |
| CodeGenPool.GenCallOwners | lib/yal/bytecode/bytecodegenerator.cpp:1183-1250 | the register holding a called function is nobody else's while the arguments are computed |
| CodeGenPool.GenStmtOwners | lib/yal/bytecode/bytecodegenerator.cpp:757-766 | a statement gives back every register it took |
| CodeGenPool.GenConditionOwners | lib/yal/bytecode/bytecodegenerator.cpp:1260-1345 | so does a condition with all its branches |
| CodeShape.FunctionShaped | lib/yal/bytecode/bytecodegenerator.cpp:88-122 | in any generated function every jump lands on a word of the function and every register operand is below the count in its header |
| CodeShape.LoopShaped | lib/yal/bytecode/bytecodegenerator.cpp:1408-1466 | both jumps of a loop land inside it or just after it |
| CodeShape.ElseShaped | lib/yal/bytecode/bytecodegenerator.cpp:1291-1334 | the jumps of a condition land on its else part and just after it, at any nesting |
| CodeShape.Embedded | lib/yal/bytecode/bytecodegenerator.cpp:1303-1305 | code keeps its jump targets inside surrounding code |
| Generator.Patched | lib/yal/bytecode/bytecodegenerator.cpp:1303-1305 | replacing a placeholder leaves the words on both sides alone |
| Generator.ByteCodeGenerator.PopRegister | lib/yal/bytecode/bytecodegenerator.cpp:253-266 | the last result, or no register when there is none |
| Generator.ByteCodeGenerator.Release | lib/yal/bytecode/bytecodegenerator.cpp:57-64 | only anonymous registers go back to the allocator |
| Generator.ByteCodeGenerator.OnStatementScopeBegin | lib/yal/bytecode/bytecodegenerator.cpp:360-374 | the statement's temporaries are taken in order, up to the first refusal |
| Generator.ByteCodeGenerator.OnStatementScopeEnd | lib/yal/bytecode/bytecodegenerator.cpp:376-396 | and given back in order |
| Generator.ByteCodeGenerator.RegisterScope | lib/yal/bytecode/bytecodegenerator.cpp:204-226 | every variable of the scope gets a register, or the result says it did not |
| Generator.ByteCodeGenerator.UnregisterScope | lib/yal/bytecode/bytecodegenerator.cpp:228-245 | the scope's variables give their registers back |
| Generator.ByteCodeGenerator.VisitExpression | lib/yal/bytecode/bytecodegenerator.cpp:768-812 | the buffer grows by exactly the expression's code, its register is on top of the stack, and the visit fails exactly when the code does not exist |
| Generator.ByteCodeGenerator.VisitConstant | lib/yal/bytecode/bytecodegenerator.cpp:814-933 | an inline or pooled load of the constant |
| Generator.ByteCodeGenerator.VisitDual | lib/yal/bytecode/bytecodegenerator.cpp:1028-1103 | both operands' code, then the operation on their registers |
| Generator.ByteCodeGenerator.VisitCompare | lib/yal/bytecode/bytecodegenerator.cpp:768-812 | both operands' code, then the comparison |
| Generator.ByteCodeGenerator.VisitSingle | lib/yal/bytecode/bytecodegenerator.cpp:1105-1141 | the operand's code, then the operation |
| Generator.ByteCodeGenerator.VisitCall | lib/yal/bytecode/bytecodegenerator.cpp:1143-1250 | load, arguments and call, with the function's register released afterwards |
| Generator.ByteCodeGenerator.VisitCallArgs | lib/yal/bytecode/bytecodegenerator.cpp:949-964 | each argument's code followed by its push, in order |
| Generator.ByteCodeGenerator.VisitStatement | lib/yal/bytecode/bytecodegenerator.cpp:757-766 | exactly the statement's code is added and the pool is the one after it |
| Generator.ByteCodeGenerator.VisitDeclare | lib/yal/bytecode/bytecodegenerator.cpp:966-1026 | the initial value is computed into the variable's own register, or copied there |
| Generator.ByteCodeGenerator.VisitAssign | lib/yal/bytecode/bytecodegenerator.cpp:653-755 | the value's code and the store, none when a variable is assigned to itself |
| Generator.ByteCodeGenerator.VisitReturn | lib/yal/bytecode/bytecodegenerator.cpp:1347-1379 | the value's code and a return of its register, or of no register |
| Generator.ByteCodeGenerator.VisitWhile | lib/yal/bytecode/bytecodegenerator.cpp:1408-1466 | test, patched jump out, body and jump back; refused when a jump exceeds its 16 bits, which `CodeExists.StmtCode` states as a number of words |
| Generator.ByteCodeGenerator.VisitCondition | lib/yal/bytecode/bytecodegenerator.cpp:1260-1345 | test, patched jump, block, patched jump over the else part and that part; refused when a jump exceeds its 16 bits |
| Generator.ByteCodeGenerator.VisitElse | lib/yal/bytecode/bytecodegenerator.cpp:1310-1334 | the jump past the else part is patched to its end |
| Generator.ByteCodeGenerator.VisitBlock | lib/yal/bytecode/bytecodegenerator.cpp:337-358 | the scope's variables hold registers while its statements are generated |
| Generator.ByteCodeGenerator.GenerateFunction | lib/yal/bytecode/bytecodegenerator.cpp:88-122 | whatever an earlier function left, the buffer holds exactly the function's code and the pool its registers; it succeeds iff the counts over the tree are within the limits, and the code then has the counted length |
| CodeExists.BlockVars | lib/yal/bytecode/bytecodegenerator.cpp:203-226 | the variables of a scope all get registers iff they and the registers in use are at most 250 |
| CodeExists.ExprCode | lib/yal/bytecode/bytecodegenerator.cpp:820-880 | a checked expression has code iff its large constants are in the tables and there is a register for a called function; its code then has the number of words counted over the tree |
| CodeExists.StmtCode | lib/yal/bytecode/bytecodegenerator.cpp:1408-1466 | a checked statement has code iff its temporaries and scopes fit 250 registers, the words between each jump and its target are within 16 bits by their literal bounds, and its parts have code; with the counted words |
| CodeExists.SetupCode | lib/yal/bytecode/registerallocator.cpp:19-43 | parameters and scope of a function get their registers iff there are fewer than 250 variables, or 250 of which the last is not a parameter |
| CodeExists.FunctionHasCode | lib/yal/bytecode/bytecodegenerator.cpp:88-122 | a checked function has code iff its scope, its statements and its length of less than 65535 words are within the limits; the length is the count over its statements and one more |
| CrowdedScope.LastParameterRefused | lib/yal/bytecode/registerallocator.cpp:23-42 | a checked function of one parameter and 249 local variables, each set to zero: it has code iff its parameter is not listed last |
| Sample.SampleHasCode | lib/yal/bytecode/bytecodegenerator.cpp:88-122 | a checked program with a loop, a condition with two else parts, calls, declarations, assignments and returns has code without any constant table |
| Machine.FunctionPointerFound | lib/yalvm/yalvm_ctx.c:795-804 | a loaded function pointer leads back to its function |
| CompilerRelation.InlineConstantLoaded | lib/yal/bytecode/bytecodegenerator.cpp:836-851 | an inline constant holds its value in the register iff it is not a negative signed one |
| CompilerRelation.ConstantCorrect | lib/yal/bytecode/bytecodegenerator.cpp:814-933 | loading any other constant leaves its value in the register |
| CompilerRelation.ConditionRead | lib/yalvm/yalvm_ctx.c:772-783 | a condition of any type is read as false iff its low half is zero |
| CompilerRelation.ConditionReadRight | lib/yalvm/yalvm_ctx.c:772-783 | that is what the source means iff the value is narrow, or zero, or its low half is not zero |
| CompiledSteps.OppositeJumps | lib/yalvm/yalvm_ctx.c:761-783 | with one register and offset, one of the two conditional jumps jumps and the other goes on; the one on true jumps iff the low half of the register is not zero |
| Readings.TruthAlike | lib/yalvm/yalvm_ctx.c:772-783 | the written and the compiled reading of a test agree iff that condition holds, and the cautious reading gives an answer just then |
| Readings.InvokeAlike | lib/yalvm/yalvm_ctx.c:235-240 | a call that has a meaning both readings are sure of has that meaning in each of them |
| Misreadings.WideTestMisread | lib/yalvm/yalvm_ctx.c:772-783 | for every 64-bit literal, the compiled test of it takes the branch it says iff the literal is zero or its low half is not |
| Misreadings.StaleSumMisread | lib/yalvm/yalvm_ctx.c:235-240 | for all literals, a compiled sum with a promoted constant is the sum it says iff the literal loaded before into the same register is below 2^32 |
| Literals.LiteralLoadable | lib/yal/util/str_utils.cpp:45-57 | the constant of a literal arrives in its register, unless it is a 32-bit signed one just below a multiple of 2^32 |
| Literals.LiteralExact | lib/yal/util/str_utils.cpp:45-57 | the constant is the number that was written iff the type has that number |
| Literals.NegativeLiteral | lib/yal/util/str_utils.cpp:45-57 | a literal without a sign that becomes -1 and is loaded as 65535 |
| CompilerRelation.ScopeClosed | lib/yal/bytecode/bytecodegenerator.cpp:350-358 | leaving a scope keeps every outer variable in its register |
| CallSteps.ParametersFirst | lib/yal/bytecode/bytecodegenerator.cpp:171-202 | parameter k is in register k when a function's code begins |
| CallSteps.FunctionPool | lib/yal/bytecode/bytecodebuilder.cpp:306-310 | a frame of the size in the header has room for every register the code uses |
| CallSteps.CallPreserves | lib/yalvm/yalvm_ctx.c:904-926 | a call changes no register of the caller but its temporaries and its result |
| CompilerCorrect.ExprCorrect | lib/yal/bytecode/bytecodegenerator.cpp:768-1250 | running an expression's code leaves its source value in its register and every other owned register unchanged |
| CompilerCorrect.CallCorrect | lib/yal/bytecode/bytecodegenerator.cpp:1143-1250 | running a call's code runs the callee and resumes with the returned value, caller's registers kept |
| CompilerCorrect.ArgsCorrect | lib/yal/bytecode/bytecodegenerator.cpp:949-964 | the pushed cells of the open frame hold the argument values in order and the rest of it stays zero |
| CompilerCorrect.InvokeCorrect | lib/yal/bytecode/bytecodegenerator.cpp:88-122 | a function's body runs from its first word to a return of the source value, at any depth of recursion |
| CompilerCorrect.StmtsCorrect | lib/yal/bytecode/bytecodegenerator.cpp:757-766 | statements in sequence leave every variable's register with its source value, or reach the source's return |
| CompilerCorrect.VisitCorrect | lib/yal/bytecode/bytecodegenerator.cpp:653-1466 | the same for each kind of statement |
| CompilerCorrect.WhileCorrect | lib/yal/bytecode/bytecodegenerator.cpp:1408-1466 | the patched loop turns as often as the source loop |
| CompilerCorrect.BlockCorrect | lib/yal/bytecode/bytecodegenerator.cpp:337-358 | a block's code runs like the block, and its variables are gone afterwards |
| CompilerCorrect.ConditionCorrect | lib/yal/bytecode/bytecodegenerator.cpp:1260-1345 | the patched jumps choose the branch the source chooses |
| CompilerCorrect.ProgramCorrect | lib/yalvm/yalvm_ctx.c:144-315 | a host call of any compiled function returns the value the source computes |
| CompilerCorrect.CallReturns | lib/yalvm/yalvm_ctx.c:830-926 | a call at any depth resumes just after its CALL with every register unchanged but the result's |
| FlatStack.SizeKept | lib/yalvm/yalvm_stack.c:21-173 | no operation gains or loses a word of the block |
| FlatStack.LowerFramesKept | lib/yalvm/yalvm_stack.c:21-173 | whatever a run does above a depth, the frames below it are untouched |
| FlatStack.BalancedRestores | lib/yalvm/yalvm_stack.c:21-112 | a balanced run ends with the frames, base and top it began with |
| FlatStack.CalleeRegisters | lib/yalvm/yalvm_stack.c:113-173 | a callee's registers are its pushed arguments followed by zeros |
| FlatStack.LaidWritten | lib/yalvm/yalvm_stack.c:3-8 | storing to any register of any frame changes one word, no record and no other frame |
| FlatStack.CallStack.FrameBegin | lib/yalvm/yalvm_stack.c:21-73 | a new record and zeroed registers above the top; refused iff they do not fit, and then nothing changes |
| FlatStack.CallStack.FrameEnd | lib/yalvm/yalvm_stack.c:75-111 | base, top and saved program counter come back from the record |
| FlatStack.CallStack.Push | lib/yalvm/yalvm_stack.c:113-126 | one word is added to the innermost frame |
| FlatStack.CallStack.FunctionBegin | lib/yalvm/yalvm_stack.c:144-173 | the record takes the return address and register, the frame its registers |
| FlatStack.CallStack.ReturnRegister | lib/yalvm/yalvm_stack.c:181-202 | the result pointer of the innermost record |
| Interpreter.RegisterWritten | lib/yalvm/yalvm_ctx.c:209-217 | writing a register of the running frame is the abstract register write |
| Interpreter.CallerWritten | lib/yalvm/yalvm_ctx.c:909-915 | the word a return stores to is the caller's result register |
| Interpreter.AcceptedWithoutFunction | lib/yalvm/yalvm_ctx.c:790-795 | among the indices the test lets through, only the one equal to the number of functions has no function behind its pointer |
| Interpreter.Context.TestFunctionIndex | lib/yalvm/yalvm_ctx.c:790-794 | an index passes the test iff it is at most the number of functions |
| CallTargets.LoadsKnownFunctions | lib/yal/bytecode/bytecodegenerator.cpp:1183-1250 | every LOAD_FUNCTION of a compiled program names one of its functions |
| Interpreter.FrameFits | lib/yalvm/yalvm_stack.c:22-73 | a frame fits the block iff the words of the abstract state, a record and its registers do |
| Interpreter.Context.ExecuteLoadFunction | lib/yalvm/yalvm_ctx.c:784-806 | for every index: refused iff it is above the number of functions, undefined iff it is equal to it; otherwise the frame is opened and the pointer loaded iff it fits, else nothing has changed |
| Interpreter.Context.ExecuteCall | lib/yalvm/yalvm_ctx.c:830-861 | control goes to the callee with the pending frame's registers |
| Interpreter.Context.ExecuteReturn | lib/yalvm/yalvm_ctx.c:904-926 | the result is delivered and the caller's frame, pc and registers are current again |
| Interpreter.Context.Turn | lib/yalvm/yalvm_ctx.c:144-156 | one turn of the loop is one step of the abstract machine; it stops iff that halts, refuses a load or needs more words than the block has |
| Interpreter.Context.Run | lib/yalvm/yalvm_ctx.c:134-150 | every finite run of the abstract machine is a run of the loop with the same end, iff the block has room for its largest state; else it stops with StackOverflow |
| Interpreter.Context.CallFromHost | lib/yalvm/yalvm_ctx.c:1389-1430 | a host call on an empty stack is the abstract machine started on that function, with the same exact overflow condition |
| EndToEnd.CallCompiled | lib/yalvm/yalvm_ctx.c:1415-1430 | compiled code on the real stack gives the host the source's value and leaves the stack empty iff the block has room for the largest state of the call, and overflows otherwise |
| Deployment.GenerateAll | lib/yal/bytecode/bytecodebuilder.cpp:264-335 | one generator used for every function in turn gives the module of all their codes; it does iff every function is within the limits that `CodeExists` counts |
| Deployment.ProgramCode | lib/yal/bytecode/bytecodebuilder.cpp:264-335 | the functions of a checked program all have code iff their counts over the trees are within the limits |
| Deployment.ModuleAccepted | lib/yal/bytecode/bytecodebuilder.cpp:156-200 | the writer accepts a generated module iff it has fewer than 65535 functions and constants of either size |
| Deployment.ModuleRead | lib/yalvm/yalvm_binary.c:207-304 | in a written file the loaded offsets show the machine exactly the module's constants and functions, with the code where the file has it |
| Deployment.LoadedIsCompiled | lib/yal/bytecode/bytecodebuilder.cpp:264-410 | what was generated, written and loaded is a binary the compiler theorem speaks of |
| Deployment.GeneratedFits | lib/yal/bytecode/bytecodebuilder.cpp:283-323 | the fields the writer does not check are never cut for a generated module |
| Deployment.AcquireFunction | lib/yalvm/yalvm_ctx.c:1354-1390 | the backward search by name ends at the last function of the name, if it has code |
| Deployment.FunctionNamed | lib/yalvm/yalvm_ctx.c:1366-1376 | among the functions of a well-named program that is the one asked for |
| Deployment.BuildAndCall | lib/yalvm/yalvm_ctx.c:1354-1430 | source, generated module, written file, loaded file, call by name: built iff every function is within its counted limits and there are fewer than 65535 functions and constants of either size; then the host gets the source's value iff the block is large enough, and StackOverflow otherwise |
| BinaryFile.NumberReadBack | lib/yalvm/yalvm_binary.h:74-87 | a number comes back from its field iff it fits it |
| BinaryFile.StringsSize | lib/yal/module/module.cpp:190-199 | the string size computed from the table is the number of bytes written for it |
| BinaryFile.WriteModuleInfo | lib/yal/bytecode/bytecodebuilder.cpp:33-410 | the writer succeeds iff every count and length is below its literal limit, and then appends exactly the encoding of the module |
| BinaryFile.AcceptedIff | lib/yal/bytecode/bytecodebuilder.cpp:66-200 | the checks of the writer are those limits, with the size of the strings and the words that end code outside functions counted in |
| BinaryFile.Layout | lib/yalvm/yalvm_binary.c:37-104 | every part of a written file is where the header's sizes put it, and the functions end the file |
| BinaryFile.Load | lib/yalvm/yalvm_binary.c:207-304 | loading a written file gives back every constant, string, static code block and function header, name and code in order; static and global code is its own words and one more by which the machine halts, whatever its state, and nothing where there are none; a wrong magic number is refused, and so is a file with no functions where they are looked for |
| BinaryFile.RecoveredHalts | lib/yal/bytecode/bytecodebuilder.cpp:205-245 | in a file that gives a module back, each region outside functions is empty or ends in a word that the machine executes to a halt |
| BinaryFile.FunctionsFound | lib/yal/bytecode/bytecodebuilder.cpp:150-152 | the functions are looked for where they were written iff the static size fits 16 bits |
| BinaryFile.LongRegionsLost | lib/yal/bytecode/bytecodebuilder.cpp:150-152 | a module the writer accepts, with two static regions of 40000 words, of which the loader misses the functions |
| Sets.SetTable.SetAdd | external/lemon/3.24/lemon.c:4925-4934 | one element is added, and the result says whether it was new |
| Sets.SetTable.SetUnion | external/lemon/3.24/lemon.c:4936-4949 | one row is added to another, and the result says whether anything changed |
| FirstSets.NullableExact | external/lemon/3.24/lemon.c:846-862 | a sound and closed table marks a form nullable iff it derives the empty string |
| FirstSets.FirstExact | external/lemon/3.24/lemon.c:864-888 | a sound and closed table lets a form begin with a token iff some derivation does |
| FirstSets.GrammarSets.FindLambdas | external/lemon/3.24/lemon.c:846-862 | the loop ends, with every entry derived and no rule able to add one |
| FirstSets.GrammarSets.AddRule | external/lemon/3.24/lemon.c:868-887 | what one rule adds is derived, and without progress the rule is satisfied |
| FirstSets.GrammarSets.FindFirsts | external/lemon/3.24/lemon.c:864-888 | the second loop ends sound and closed |
| FirstSets.GrammarSets.FindFirstSets | external/lemon/3.24/lemon.c:834-890 | on exit lambda holds iff the nonterminal derives the empty string, and firstset has t iff some derived form begins with t |
| FollowSets.LeastSolution | external/lemon/3.24/lemon.c:1104-1134 | a sound table closed under the links is exactly what comes along them |
| FollowSets.Propagation.PassOn | external/lemon/3.24/lemon.c:1121-1131 | one configuration's set is passed along its links; what grows is marked incomplete again |
| FollowSets.Propagation.FindFollowSets | external/lemon/3.24/lemon.c:1104-1134 | the loop ends, and each set is the union of the initial sets of all configurations that reach it |
| Lr0.SortedUnique | external/lemon/3.24/lemon.c:5307-5334 | a set of configurations has one sorted list, so comparing basis lists compares sets |
| Lr0.ClosureAddsFresh | external/lemon/3.24/lemon.c:1370-1410 | a closure adds configurations with the dot in front only |
| Lr0.Builder.Closure | external/lemon/3.24/lemon.c:1370-1411 | the growing list ends as the least closed set over the basis |
| Lr0.Builder.GetState | external/lemon/3.24/lemon.c:956-994 | the state with the basis is found or made; earlier states stay, and all new ones are complete |
| Lr0.Builder.BuildShifts | external/lemon/3.24/lemon.c:1016-1064 | exactly one shift for each symbol after a dot, to the state whose basis is those configurations moved over it |
| Lr0.Builder.BuildBasis | external/lemon/3.24/lemon.c:1041-1051 | the configurations with the symbol after the dot, each used once |
| Lr0.Builder.FindStates | external/lemon/3.24/lemon.c:898-951 | the mutual recursion ends; every basis is stored once, every list is its closure, every state's shifts are exact, and every state but the first is shifted to from one made before it |
| Lr0.ShiftsAreEdges | external/lemon/3.24/lemon.c:1053-1062 | every constructed shift is an edge in the sense the driver needs, and the first state has no dot moved |
| Lr0.AskedFor | external/lemon/3.24/lemon.c:1370-1410 | a configuration with the dot in front is in the basis, or another configuration of the state has its left-hand side after the dot |
| Links.Recorder.StartSets | external/lemon/3.24/lemon.c:936-944 | the configurations of the first basis, and no others, begin with the end of input after them |
| Links.Recorder.RecordClosures | external/lemon/3.24/lemon.c:1412-1434 | each asked configuration gets exactly the tokens that can begin what follows it in the asking one, and a forward link exactly from those in which nothing may follow |
| Links.Recorder.RecordMoves | external/lemon/3.24/lemon.c:1041-1047 | each configuration of a basis has back links to exactly the configurations it was moved from |
| Links.FindLinks | external/lemon/3.24/lemon.c:1069-1097 | the links are the forward ones that were recorded and the back links turned round, and no others |
| Links.StartFollowsEnd | external/lemon/3.24/lemon.c:1104-1134 | along the links of the built states only the end of input comes after a rule of the start symbol, when that is on no right-hand side |
| Lalr.SpineDerives | external/lemon/3.24/lemon.c:1397-1445 | a way down from the start symbol is a derivation: of what is recognised, the nonterminal reached and what is still to come |
| Lalr.AllReached | external/lemon/3.24/lemon.c:956-1065 | every configuration of every state has a way down that leads to the state |
| Lalr.WayLeads | external/lemon/3.24/lemon.c:1016-1065 | every way down leads to a state |
| Lalr.LeadsToOne | external/lemon/3.24/lemon.c:1016-1065 | and to one only |
| Lalr.WayEnds | external/lemon/3.24/lemon.c:1397-1445 | the state has the configuration the way leads to |
| Lalr.LookaheadsExact | external/lemon/3.24/lemon.c:1069-1134 | the look-ahead sets are LALR(1): a token is in that of a configuration of a state iff some way down to it leads to the state and leaves the token, or nothing and the end of input, to come next |
| Lalr.WantedExact | external/lemon/3.24/lemon.c:1140-1180 | the actions collected for a state are exactly its shifts, the reduces of complete rules on the tokens that come next on some way to them, and the accept |
| Actions.TieIff | external/lemon/3.24/lemon.c:1222-1287 | a shift is left as an error beside a reduce iff their precedences are equal and the token has no associativity; otherwise at most one of two actions stays active |
| Actions.ResolveConflicts | external/lemon/3.24/lemon.c:1182-1194 | what becomes of each action is stated without the comparisons: for every symbol the action that no later one takes over from stays, a shift that ties with the last one becomes an error, all others are inactive; an assertion fails iff a shift ties before the last action of its symbol |
| Actions.ShiftOrReduce | external/lemon/3.24/lemon.c:1233-1250 | of a shift and a reduce alone on a token, the shift stays iff a level is undefined, the token's is higher, or they are equal and the token is right associative; the reduce iff the token's is lower, or they are equal and the token is left associative; and the shift becomes an error iff they are equal and the token has no associativity |
| Actions.ReduceOrReduce | external/lemon/3.24/lemon.c:1252-1264 | of two reduces alone on a token the one with the higher level stays, and without levels or with equal ones the one with the smaller rule number |
| Actions.HolderStays | external/lemon/3.24/lemon.c:1182-1194 | the action that no later one takes over from is active whatever else the symbol has |
| Actions.CollectActions | external/lemon/3.24/lemon.c:1140-1180 | before conflicts a state has exactly the shifts to its successors, the reduces of its complete configurations on the tokens that follow them, and in the first state the accept; one goto for each nonterminal |
| Actions.FindActions | external/lemon/3.24/lemon.c:1140-1194 | so for every state, with the conflicts resolved; it fails only where in some state a shift ties before the last action for its symbol |
| Actions.FoundFounded | external/lemon/3.24/lemon.c:1140-1194 | each action left is a shift to a successor, a reduce of a complete configuration on a token that follows it, the accept in the first state, or an error |
| Actions.FoundGotos | external/lemon/3.24/lemon.c:1140-1194 | conflicts never cost a state a goto or the accept |
| Actions.UntiedFound | external/lemon/3.24/lemon.c:1222-1287 | without ties every symbol has at most one active action |
| LrDriver.PathSpells | external/lemon/3.24/lempar.c:509-519 | a configuration of the top state has its recognised part on top of the stack |
| LrDriver.ReduceFindsRule | external/lemon/3.24/lempar.c:937-944 | a reduce, pending or not, finds its right-hand side on top |
| LrDriver.AcceptDerives | external/lemon/3.24/lempar.c:945-948 | on accepting, the stack is the start symbol alone, which derives the shifted tokens |
| LrDriver.Parser.YyShift | external/lemon/3.24/lempar.c:649-687 | the stack spells one token more, or overflowed and is empty |
| LrDriver.Parser.YyReduce | external/lemon/3.24/lempar.c:709-800 | the right-hand side on top is replaced by the left-hand side, which derives the same tokens |
| LrDriver.Parser.Parse | external/lemon/3.24/lempar.c:896-1061 | the outcome for one token, exactly: the forced reduces are followed one by one to where they end, and there the token is shifted, the input accepted, the error action found, or the stack full; `StillReducing` iff there are `limit` of them; what is accepted is derived from the start symbol |
| LrDriver.Parser.ParseInput | external/lemon/3.24/lempar.c:896-1061 | an input is accepted iff each of its tokens is shifted and the end accepted in that sense, and it is then derived from the start symbol |
| LrDriver.OneOutcome | external/lemon/3.24/lempar.c:928-960 | a stack and a token have one outcome and one stack after it |
| LrDriver.Parser.YyAccept | external/lemon/3.24/lempar.c:850-872 | the start symbol is popped and the bottom entry stays |
| LrDriver.Parser.YySyntaxError | external/lemon/3.24/lempar.c:1013-1045 | an error at the end of input empties the stack, at any other token it leaves it |
| Completeness.ReadRest | external/lemon/3.24/lempar.c:928-944 | in the tables of a grammar without conflicts, the driver reads what the rest of a rule derives: it ends above where the rule began with the rule's symbols on the stack, whatever allowed token comes next |
| Completeness.SentenceAccepted | external/lemon/3.24/lempar.c:896-1061 | for such a grammar and every sentence there is a bound such that every deeper stack and higher limit accepts it |
| Completeness.SentenceNotRefused | external/lemon/3.24/lempar.c:896-1061 | with any depth and limit such a sentence is accepted at its end, or the stack overflows, or the reduces take longer; it is never a syntax error |
| Completeness.UnconflictedIsLalr1 | external/lemon/3.24/lemon.c:1140-1194 | the actions collected in the states have no conflict iff the grammar is LALR(1) |
| GeneratedTables.GotoOf | external/lemon/3.24/lemon.c:1140-1178 | a rule a state starts on has a goto there, or the accept in the first state |
| GeneratedTables.LeftByLonger | external/lemon/3.24/lemon.c:4768-4776 | a state that is left at once is left by a rule with something on its right-hand side |
| GeneratedTables.LeadsRight | external/lemon/3.24/lemon.c:4798-4826 | a goto that has been replaced along one-symbol rules is one the driver may take for the nonterminal it replaces |
| GeneratedTables.FinalRight | external/lemon/3.24/lemon.c:4717-4826 | every action of a symbol after all passes is right for it, and no goto is lost |
| GeneratedTables.TablesAgree | external/lemon/3.24/lemon.c:4717-4826 | tables in which the driver finds what all three passes have made of each state's actions agree with the automaton, and reduce start rules on the end of input only |
| UnitRules.UnitGoto | external/lemon/3.24/lemon.c:4798-4826 | where a goto would only apply a rule of one symbol, that symbol is the goto's own and the rule's left-hand side has a goto too |
| UnitRules.GotosClimb | external/lemon/3.24/lemon.c:4798-4826 | when the skipped rules of the grammar do not lead in a circle, every state's gotos can be followed to their ends |
| ActTab.ExactReads | external/lemon/3.24/lemon.c:560-579 | reading at a round's offset finds a lookahead iff it is in the round, with its action |
| ActTab.LaidKeeps | external/lemon/3.24/lemon.c:738-757 | a round laid into a hole leaves every earlier round exact |
| ActTab.LaidExact | external/lemon/3.24/lemon.c:767-774 | a round laid into a hole is exact itself |
| ActTab.DuplicateExact | external/lemon/3.24/lemon.c:703-729 | an offset with all the entries and as many matches as entries can be shared |
| ActTab.HoleAtEnd | external/lemon/3.24/lemon.c:742-757 | far enough past the used slots every offset passes the test of the hole search |
| ActTab.OverlaidExact | external/lemon/3.24/lemon.c:767-774 | laid over anything, a round is exact iff nothing else was read at its offset, and an earlier round stays exact iff none of its slots is written |
| ActTab.Headroom | external/lemon/3.24/lemon.c:683-696 | a round whose least and greatest lookahead add up to at most the number of symbols finds a place in every table |
| ActTab.PlacedExact | external/lemon/3.24/lemon.c:675-778 | a round that finds a place is exact, and all exact rounds stay so |
| ActTab.MisplacedExact | external/lemon/3.24/lemon.c:735-778 | what is exact after a round that finds none |
| ActTab.AllRoundsExact | external/lemon/3.24/lemon.c:675-778 | over any run of insertions that find places, all rounds are exact at every moment |
| ActTab.UsedInside | external/lemon/3.24/lemon.c:675-778 | a round small for what is used leaves the used slots inside the table, and moves their end by no more than its cost |
| ActTab.SmallRun | external/lemon/3.24/lemon.c:675-778 | over any run of rounds that are small for what those before them cost, every round finds a place and the used slots stay inside |
| ActTab.CrowdedRun | external/lemon/3.24/lemon.c:735-778 | for every number of terminals: a run from the empty table in the generator's order, with a round that finds no place and two rounds that are misread from then on |
| ActTab.ActTab.Action | external/lemon/3.24/lemon.c:634-658 | the round being collected grows by one entry, with its least and greatest lookahead |
| ActTab.ActTab.Grow | external/lemon/3.24/lemon.c:679-696 | room for a whole round more, with the rounds where they were |
| ActTab.ActTab.FindDuplicate | external/lemon/3.24/lemon.c:698-729 | the last index at which the round is in the table already, or none |
| ActTab.ActTab.FindHole | external/lemon/3.24/lemon.c:735-757 | on every table: it stops inside iff there is a hole from its start on, and then at the first |
| ActTab.ActTab.TestHole | external/lemon/3.24/lemon.c:742-757 | the test of one index passes iff it is a hole |
| ActTab.ActTab.Locate | external/lemon/3.24/lemon.c:698-757 | a duplicate if there is one, else the first hole, else where the search gives up |
| ActTab.ActTab.Place | external/lemon/3.24/lemon.c:767-774 | the entries are copied into their slots, whatever is in them |
| ActTab.ActTab.Insert | external/lemon/3.24/lemon.c:675-778 | on every table: the round is laid at the place chosen and the used slots grow to it; it says whether a place was found, and there is none to lay the round iff it was not and the least lookahead is 0 |
| ActTab.ShiftLookup | external/lemon/3.24/lempar.c:509-572 | the driver's lookup of a terminal in the written tables is the state's own map, and its default elsewhere |
| ActTab.ReduceLookup | external/lemon/3.24/lempar.c:578-602 | a goto of the state's map is found with its action |
| CompressTables.MostFrequent | external/lemon/3.24/lemon.c:4727-4750 | no other rule is reduced by more often, and of those reduced by as often it is the first in the list; rules of the start symbol never qualify |
| CompressTables.ParserState.MergeReduces | external/lemon/3.24/lemon.c:4757-4766 | the first reduce by the rule becomes the default and the others disappear |
| CompressTables.ParserState.Compress | external/lemon/3.24/lemon.c:4717-4776 | every lookahead that had an action keeps an equivalent one; the state's actions and flags are those of the first pass |
| CompressTables.LeftIff | external/lemon/3.24/lemon.c:4768-4776 | a state without an accept is left at once by a rule iff it did nothing but reduce by that rule, errors aside, and the rule is not one of the start symbol |
| CompressTables.ErrorPassedOver | external/lemon/3.24/lemon.c:4768-4776 | for every token and rule: a state that reduces by the rule and has an error for the token is left at once, error or not |
| CompressTables.ParserState.MakeShiftReduces | external/lemon/3.24/lemon.c:4778-4796 | shifts into states that are left at once become shift-reduces by their rule, all other actions stay |
| CompressTables.ParserState.FollowUnits | external/lemon/3.24/lemon.c:4798-4826 | a goto is replaced by what it leads to along rules of one symbol without code, until none would only apply such a rule; tokens keep their actions; and this ends when each such rule leads to a goto of higher rank |
| CompressTables.CompressTables | external/lemon/3.24/lemon.c:4717-4826 | over all states and passes: a shift into state s ends as a shift-reduce by r iff s did nothing but reduce r; every lookahead keeps its action or the default that replaces it; gotos are replaced by what they lead to |
| TableWriter.ResortStates | external/lemon/3.24/lemon.c:4836-4884 | a permutation and its inverse: the first state first, the others by their numbers of goto and of token actions, then by their old numbers, the larger first each time; the trailing states without rows are exactly the last ones left at once |
| TableWriter.OrderedIsBusier | external/lemon/3.24/lemon.c:4836-4852 | the order the states are sorted in, in those counts |
| TableWriter.EntriesCollected | external/lemon/3.24/lemon.c:4296-4310 | the entries of a row's round are exactly its active actions for tokens, or for nonterminals |
| TableWriter.PackRounds | external/lemon/3.24/lemon.c:4285-4322 | every nonempty round is inserted once, the longer ones first and equally long ones by their rows, and its offset kept; it says whether all found a place |
| TableWriter.ReportTable | external/lemon/3.24/lemon.c:4285-4480 | the arrays hold every round at its row's offset and every default; each row has its offset for tokens iff the last row has an action for one; rounds small for each other all find a place |
| TableWriter.TablesWritten | external/lemon/3.24/lemon.c:4285-4480 | rounds that all found a place, packed and written, give the driver each state's own actions and default |
| ParserGenerator.ComputeFollow | external/lemon/3.24/lemon.c:1069-1134 | each configuration's follow set is all that comes along the links between the built states' configurations |
| ParserGenerator.ReducibleOn | external/lemon/3.24/lemon.c:1148-1163 | a rule of the start symbol is collected as a reduce on the end of input only, whatever the conflicts |
| ParserGenerator.GenerateTables | external/lemon/3.24/lemon.c:1726-1760 | grammar to tables: there are rows unless in some built state tokens tie with rules in a way that fails an assertion or leaves an error beside other reduces, or skipped rules lead in a circle; when all rounds found a place, the driver finds in the tables each state's own actions iff the last row has an action for a token; rounds small for each other always find one; and the actions are what conflict resolution leaves of those due |
| ParserGenerator.GenerateAndParse | external/lemon/3.24/lempar.c:896-1061 | what a generated parser accepts is derived from the start symbol, at the end of its input only; if the grammar is LALR(1), a sentence is accepted unless the stack overflows or the reduces do not end in time, and with room enough always; for rounds small for each other there is a parser iff the last row has an action for a token |
| ShortOffsets.BuiltConstructed | external/lemon/3.24/lemon.c:1726-1760 | what the generator has built of the example grammar meets every condition that the proofs put on it |
| ShortOffsets.SentenceDerived | external/lemon/3.24/lempar.c:896-1061 | one token is a sentence of the example grammar |
| ShortOffsets.AfterToken | external/lemon/3.24/lempar.c:509-514 | the actions by which the driver comes from the first state into state 2 over that token |
| ShortOffsets.ReportShort | external/lemon/3.24/lemon.c:4411-4433 | its rounds all find a place, and the row of state 2 has no offset for tokens |
| MSort.MergedSorted | external/lemon/3.24/lemon.c:1832-1869 | merging sorted lists gives a sorted list |
| MSort.MergedBag | external/lemon/3.24/lemon.c:1832-1869 | with the elements of both |
| MSort.Merge | external/lemon/3.24/lemon.c:1832-1869 | relinking in place gives exactly that list and touches no other node |
| MSort.InsertBin | external/lemon/3.24/lemon.c:1896-1904 | a new node is carried through the full bins; bin i stays empty or a sorted list of 2^i nodes |
| MSort.Msort | external/lemon/3.24/lemon.c:1884-1908 | any list of fewer than 2^30 nodes ends as a sorted permutation, for any total preorder |
| StateTable.CompareIsEquality | external/lemon/3.24/lemon.c:5318-5342 | bases compare equal iff they are the same configurations, and then they hash equally |
| StateTable.MaskIsRemainder | external/lemon/3.24/lemon.c:5407-5408 | masking a hash with one less than the size is the remainder by the size, which stays a power of two |
| StateTable.LinkKeeps | external/lemon/3.24/lemon.c:5442-5450 | putting a node in front of its chain keeps every chain exact and free of repetition |
| StateTable.ContentsMember | external/lemon/3.24/lemon.c:5396-5398 | a key is in the table iff some node has it, and then with that node's data |
| StateTable.Table.constructor | external/lemon/3.24/lemon.c:5379-5395 | the table starts empty |
| StateTable.Table.FindNode | external/lemon/3.24/lemon.c:5460-5467 | the walk of one chain ends at the node with the key, or no node has it |
| StateTable.Table.Find | external/lemon/3.24/lemon.c:5455-5468 | the data the key was first inserted with, or none |
| StateTable.Table.Grow | external/lemon/3.24/lemon.c:5416-5440 | doubling the table loses and duplicates nothing |
| StateTable.Table.Insert | external/lemon/3.24/lemon.c:5396-5451 | a new key is added to the map; a key that is there keeps its data |
| DynamicArrays.InsertRemove | lib/yalvm/yalvm_array.c:84-150 | removing undoes inserting, and inserting back undoes removing |
| DynamicArrays.BufferHoldsCapacity | lib/yalvm/yalvm_array.c:15-24 | the memory asked for holds the new capacity iff its bytes can be counted in 32 bits |
| DynamicArrays.DynamicArray.Grow | lib/yalvm/yalvm_array.c:3-34 | afterwards one more element fits and the rest is unchanged; the capacity stays within 8 or twice the size |
| DynamicArrays.DynamicArray.constructor | lib/yalvm/yalvm_array.c:36-44 | an array without initial capacity is empty |
| DynamicArrays.DynamicArray.Get | lib/yalvm/yalvm_array.c:58-67 | the element at the index, or none past the end |
| DynamicArrays.DynamicArray.Replace | lib/yalvm/yalvm_array.c:69-82 | one element changes, or nothing past the end |
| DynamicArrays.DynamicArray.Insert | lib/yalvm/yalvm_array.c:84-112 | the new element stands between the two parts, moved up over themselves in place |
| DynamicArrays.DynamicArray.Append | lib/yalvm/yalvm_array.c:114-128 | the new element is the last |
| DynamicArrays.DynamicArray.Remove | lib/yalvm/yalvm_array.c:130-150 | the element is gone and those after it have moved down |

## Left out

- Floating point, strings, arrays, objects and their reference counts, references and
  global variables: the compiled language is local integers and booleans of both widths.
- The operators and, or, not, and parentheses around them: their jump placeholders share
  one list, and the NOT instruction reads its destination.
- Assignments used as operands of an expression.
- Calls inside the arguments of another call: a return makes the innermost open frame
  current, so the outer call's caller loses its registers. The checker of programs refuses them.
- Operands, assignments, arguments and results whose sides differ in type are admitted when
  the right side promotes to the left; a promotion whose extension is not known has no
  compiled meaning, and no promotion to a boolean is admitted.
- Division by zero, INT_MIN divided by -1 and shifts by the width or more have no meaning
  here; other overflow wraps, as the machine's instructions do.
- Deployment.BuildAndCall: modules without globals, strings and code outside functions, so
  that loading one runs no code.
- Native functions, print instructions and code outside functions.
- The symbol-tree builder is modelled by the scopes, temporaries and constant tables it
  leaves behind, not by its code. CodeExists and what builds on it ask that a scope lists
  exactly the variables declared in it, each once, as that builder makes them. Symbols of a
  scope are taken in the order of its list.
- Code buffers of 2^31 words and more, and stacks whose size is not a multiple of a word.
- Interpreter.Context.Turn: asks for a step the abstract machine has a meaning for, or a load
  that is refused, because the C code reads outside its memory otherwise.
- ActTab.ActTab.Insert: gives no index when none is found and the least lookahead is 0,
  because the C code then writes outside its array.
- ParserGenerator.GenerateTables: gives no tables where an error for a token without
  associativity stands beside a reduce in a state that reduces by other rules too, because
  both may then be in one round for the same token; and where one-symbol rules lead on for
  more than `limit` steps, because the C code need not stop where they lead in a circle. A
  grammar with its start symbol on a right-hand side is not admitted; the generator reports
  it as an error.
- ParserGenerator.GenerateAndParse: stops without a parser where a round found no place or the
  last row has no token action, because the driver then reads outside its arrays or the rounds.
- LrDriver.Parser.Parse: bounds the reduces before a token is shifted, because tables
  built from an ambiguous grammar can reduce for ever; `StillReducing` is that bound.
- LrDriver: fallback and wildcard tokens, the error symbol, semantic values and destructors.
- Completeness: for grammars with conflicts, which sentences the resolved tables accept.
- Lr0: bases are looked up in the list of states; `StateTable` is the hash table that does it,
  proved to be a map on its own.
- Links: the links are recorded from the finished states, one state after the other, not while
  the states are being built; configurations are numbered instead of being pointed to.
- Actions: the precedence symbols of the rules are data, not found by `FindRulePrecedences`.
- Grammar-file parsing, the error symbol, reports and the text of the generated program.
- StateTable: the back links of its chains, which are never followed. The tables of strings,
  symbols and configurations have the same shape and are not repeated.
- DynamicArrays: an initial capacity other than zero, which is counted in bytes, and cloning,
  which never sets the size. Insert and Append ask that the bytes of a growth fit 32 bits.
