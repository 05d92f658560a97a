# cloxBooster, modelled in Dafny

cloxBooster compiles Lox to bytecode in one pass, runs it on a stack machine, collects garbage by mark and sweep, and
allocates small objects from slab arenas. This project models the five parts whose correctness is hardest to see and
proves what each promises. `dafny verify dfyconfig.toml` checks everything.

**Compiler and machine.** `Semantics` gives a script its meaning by evaluating its tree; `Machine` is a transition
function over code bytes. `Compiler` is the single-pass compiler: a class whose methods append to, truncate, overwrite
and back-patch one code buffer, and whose op stack describes the end of that buffer. `Peephole` says what a rewrite of
the last instructions is and why it is sound; `Simulation` and `Layout` compose the pieces of code between which jumps
are still open; `Compile` closes the argument. The arithmetic is a parameter, so the result holds for every rounding
mode and for NaN. `Refusals` says which scripts are refused; `Rules` states the rules behind that over nested scopes, and
proves what they are for: no constant ever changes. `Laws` has what scripts can count on. `Joins` and `Miscompiled` say when, and show that, the optimizer
is wrong behind `and` and `or`.

**Captured variables.** `Upvalues` is the machine's sorted list of open upvalues over the stack; what a program sees is
that each variable is one cell. `Captures` and `Functions` are the compiler's decision between popping a local and closing
it, taken from what it has seen so far, with a note for every code position of the height of the stack and of the slots
that may be shown. Its source is cut down to what matters for that: which names the closures of an expression use.
`Activations` runs the code of one function on the machine: what the notes say is what the machine needs. `Calls` runs whole
programs, with frames, calls, closures, locals and upvalues, and proves every run to be the run of a machine for which each
variable is a cell. `Flows` follows the control flow of a function, by its source and by its code, when the outcomes of its
conditions are given; `Meanings` ties the machine with calls to the one over bytes; `Surplus` is about calls with more arguments than parameters.

**Slab allocator.** `Links`, `Lists`, `Arenas` and `Segments` describe the segment as a value: chains, ring, revive chain,
free lists threaded through freed slots. `Slab` is the class that changes it in place, and `Blocks` the resizable blocks
over slab and heap.

**Collector.** `Heap` defines reachability, `Collector` the flip-mark collector with its gray stack, the sweep of the
object list, and allocation.

**Tables, strings, hashing, lines.** `Probing` proves linear probing with tombstones once, for every key and value;
`Tables`, `StringTables` and `NumberTables` are its three instances, `Globals` the per-name cache of cell indices,
`Interning` and `Constants` what is built on them. `Hashing` is the 64-bit hash, in one pass and streamed, and `Mixing` shows
that its steps lose nothing. `Lines` is the
table of line ranges with its rollback and search.

## Findings

Three properties that the code suggests do not hold. All are kept as the code has them, with an input that shows the failure
and the exact condition.

- **Rewrites across a join** (src/compiler.c:343-354). Patching the jump of `and` or `or` leaves the op stack as it was, so
  the next operator, assignment or pop may be rewritten together with the end of the right operand, although the jump arrives
  between the two. `print !(true or nil);` prints true (`Miscompiled.Compiled`, `Miscompiled.NotCorrect`).
  `Joins.RewrittenAcross` compares the bytes before and after such a rewrite, run by the machine in front of any code: they do
  the same for every continuation exactly when the jump is not taken, a test on the left operand's value, or when what it
  leaves out is harmless. `Joins.MergedAcross` and `Joins.FoldedAcross` name the harmless cases: the negation of a number that
  is its own; an operation that would not change the left operand, when the load is as long as what is skipped; and the number
  of an assigned slot that happens to be the opcode of what was skipped. For one given continuation the code may still be
  right by luck, when a jump past the load meets bytes that do no harm, as in `(false and 1) == 2;` at the end of a script.
  `Syntax.DeclsSafe` describes scripts in which no rewrite crosses a join, given which names are locals; for these `Compile`
  promises correct code.
- **Inclusive end of a rolled-back range** (src/lineArray.c:48-54). A rollback leaves the last range ending at the offset of
  the next byte. If that byte has another line, a second range ends there and the search may stop at the first
  (`Lines.StaleOffset`); it may do so too when the byte is taken back once more and written again with the second range's
  line (`Lines.StaleAgain`), and a later rollback elsewhere can turn a right answer there into a wrong one
  (`Lines.AnswerMoves`). After any writes and rollbacks the line last written is found for every offset that is no target of a
  rollback (`Lines.UntouchedFound`). At a target a byte just written is found with its line exactly when
  `Lines.FoundAtOnce` holds of the ranges before the write (`Lines.WrittenFound`), and `Lines.LineFound` has the exact
  condition for every byte at any later time.
- **Surplus arguments** (src/vm.c:311-316). Arguments beyond the parameters are set to nil but stay on the stack, while the
  compiler gave the function's own variables the slots right behind the parameters. `fun f() { var x = true; return x; }
  print f(false);` prints nil (`Surplus.SurplusArgument`). An instruction about one of the function's own variables then does
  what is meant exactly when the two slots hold the same value and an assignment assigns just that value
  (`Surplus.MovedStep`), every other instruction does (`Surplus.OtherStep`), and whole runs do as long as each call has no
  surplus arguments or is of a function that is about parameters only (`Surplus.SuitableRun`).

## Model

| member | source | states |
|---|---|---|
| `Compiler.Compiler.Compile` | src/compiler.c:1696-1718 | A script that is accepted and whose operations do not straddle the end of an `and` or `or` is compiled to code that behaves as its source does: from every initial state it halts or fails with the same globals and the same printed values, or runs on as long as the source does. An accepted script keeps the rules of scopes, constants and loops; one that is refused breaks one of them, has an operation that is an error for the constants its operands end with, or made pool, code or a list of jumps too large |
| `Rules.ScriptLegal` | src/compiler.c:576-625 | What the compiler blocks, by its flat list of locals with their depths, is exactly what breaks a rule stated over nested scopes of names: a name twice in a scope, a 256th local, a local used in its own initializer, an assignment to a constant, a constant that is global or has no initializer, a break or continue outside of loops |
| `Rules.LegalSteady` | src/compiler.c:1516-1546 | In a script that keeps the rules no evaluation changes a constant: after every expression, statement and declaration executed, however it ends, each binding in scope that was declared const has the value it had before |
| `Rules.LegalCloses` | src/compiler.c:1091-1126 | Such a script never ends in a break or continue that belongs to no loop |
| `Laws.ReadLaw` | src/vm.c:928-950 | Reading a name gives the value of the innermost local or else of the global; a name without one is an error |
| `Laws.AssignLaw` | src/vm.c:951-972 | Assigning gives the name the value, leaves all other names theirs and defines none; it is an error for a name without a value |
| `Laws.DeclareLaw` | src/vm.c:918-927 | A declaration gives the name the value of its initializer, or nil, and leaves all other names theirs |
| `Laws.ForIsWhile` | src/compiler.c:906-974 | A for loop whose body does not continue is a while loop that ends its turns with the increment |
| `Refusals.DeclsFail` | src/compiler.c:1773-1994 | Where no operation reaches across a join, a script has an operation that is an error for the constants its operands end with only if it has one that fails whatever the variables hold: the optimizer refuses no operation that could succeed |
| `Programs.CorrectBothWays` | src/compiler.c:1696-1718 | Such code halts, fails or runs forever exactly when the source terminates, fails or diverges, with the same globals and output, and never reaches a state that is none of these |
| `Programs.Finished` | src/compiler.c:299-308 | Code that simulates the declarations of a script, followed by the nil and the return, is correct for the script |
| `Compiler.Compiler.Statement` | src/compiler.c:1193-1226 | The code appended for a statement, however the jumps that are still open get patched and whatever is emitted around it, takes the machine where evaluating the statement goes, with break and continue leading out of it |
| `Compiler.Compiler.Declarations` | src/compiler.c:1228-1250 | The same for a list of declarations; the locals declared join the scope |
| `Compiler.Compiler.IfStatement` | src/compiler.c:976-990 | Both branches and the two patched jumps compute the conditional, also when the condition is decided at compile time or fused with its jump |
| `Compiler.Compiler.WhileStatement` | src/compiler.c:1019-1049 | Turn after turn the loop goes on, ends, or is left as its source says |
| `Compiler.Compiler.DoWhileStatement` | src/compiler.c:1051-1088 | The same for a loop whose condition follows the body; each continue is patched to lead to the condition |
| `Compiler.Compiler.ForStatement` | src/compiler.c:906-974 | The same for a loop whose increment stands before its body |
| `Compiler.Compiler.BreakStatement` | src/compiler.c:1091-1117 | Drops the locals declared since the loop began and leaves a jump in the loop's list |
| `Compiler.Compiler.ContinueStatement` | src/compiler.c:1119-1154 | Drops the same locals and jumps to the start of the loop, or, in a do-while loop, leaves a jump to be patched |
| `Compiler.Compiler.EndScope` | src/compiler.c:463-487 | Emits code that drops the locals of the scope, also where the drop merges with a store before it, and forgets exactly these locals |
| `Compiler.Compiler.Expression` | src/compiler.c:526-554 | The code appended for an expression pushes its value or raises its error, above any operands and as the pool grows. An accepted expression does not name the local it initializes and assigns to no constant; a refused one does, or has an operation that is an error for the constants its operands end with, or made pool or code too large |
| `Refusals.UnfoldableFails` | src/compiler.c:1773-1994 | Where no operation reaches across a join, an operation that is an error for the constants its operands end with is one that fails whatever its variables hold |
| `Tails.BadEndFails` | src/compiler.c:1773-1994 | The same for one operation: evaluating it always fails |
| `Compiler.Compiler.BinaryOperation` | src/compiler.c:1252-1315 | The same for an operation folded, merged with its right operand, or left as it is; a refusal is blamed on an operand, on the pool, or on the constants that the operands end with |
| `Compiler.Compiler.ShortCircuitOperation` | src/compiler.c:725-732 | The same for `and` and `or`, whose jump is patched to lead behind the right operand while the op stack stays |
| `Compiler.Compiler.EmitChecked` | src/compiler.c:51-64 | An operator is appended and the last instructions are rewritten as the op stack shows them; it is refused for a fold that has no value, and otherwise only when the value no longer fits in the pool |
| `Compiler.Compiler.FoldBinary` | src/compiler.c:1773-1848 | Reading the two operands back from the code bytes, the last three instructions are replaced by the load of the value |
| `Compiler.Compiler.MergeBinary` | src/compiler.c:1814-1848 | Dropping the operator's byte and overwriting the opcode of the load before it leaves the merged instruction |
| `Compiler.Compiler.EmitPop` | src/compiler.c:2125-2148 | A pop merges in place with the store to a local before it, and with the load of a local before that |
| `Compiler.Compiler.EmitBranchJump` | src/compiler.c:173-286 | The bytes of the condition are left, removed or overwritten by a fused jump as the form of the condition says, and the place of the jump's operand is returned |
| `Compiler.Compiler.PatchJump` | src/compiler.c:343-354 | The operand is overwritten so that the jump leads to the end of the code; refused exactly when the distance exceeds 16 bits |
| `Compiler.Compiler.EmitLoop` | src/compiler.c:289-297 | The three bytes appended are a jump back to the given position |
| `Compiler.Compiler.MakeConstant` | src/compiler.c:310-336 | The index holds the constant; the pool grows by a number or string exactly when it did not hold it, and by a function each time |
| `Compiler.Compiler.ResolveLocal` | src/compiler.c:611-625 | The innermost local of the name, -1 for none, or an error for the local being initialized |
| `Peephole.RewriteInContext` | src/compiler.c:1735-2166 | Behind any code of which no taken jump leads into the window, a rewrite leaves the same effect on stack, globals and output, and the same error |
| `Peephole.FoldSound` | src/compiler.c:1773-1994 | The replaced window pushes the folded value, from every state |
| `Peephole.RejectSound` | src/compiler.c:1773-1994 | A fold reported as an error is one whose window raises a runtime error, from every state |
| `Peephole.MergeSound` | src/compiler.c:1814-2148 | The merged instruction does what its window does, from every state that has the assigned slot |
| `Peephole.FusionSound` | src/compiler.c:215-283 | A fused compare and jump takes the same branch, leaves the same stack and raises the same error as evaluating the comparison and testing its value, for numbers, NaN, text and mixtures |
| `Peephole.ConstantBranchSound` | src/compiler.c:180-203 | A constant condition is decided at compile time as the machine would decide it |
| `Joins.RewrittenAcross` | src/compiler.c:343-354 | A rewrite of instructions between which the jump of `and` or `or` arrives: whatever code follows, the machine does with the bytes after the rewrite what it does with those before, exactly when the jump is not taken, or when it leads to the end of the new instruction and what it leaves out changes nothing, or when it leads into the new instruction to a byte that, as an opcode, happens to do what was to be done |
| `Joins.MergedAcross` | src/compiler.c:725-732 | For merged instructions: exactly when the test on the left operand does not take the jump, but for the negation of a number that is its own, and for the number of an assigned slot that, as an opcode, happens to assign to it |
| `Joins.FoldedAcross` | src/compiler.c:1498-1504 | For folded operations: exactly when the jump is not taken, or the rest of the operation leaves the left operand's value as it is and the load is as long as what is skipped |
| `Miscompiled.Compiled` | src/compiler.c:343-354 | What the compiler emits for `print !(true or nil);`, step by step, is accepted and is not correct for it |
| `Miscompiled.NotCorrect` | src/compiler.c:343-354 | These bytes print true where the source prints false |
| `Layout.WhileCompiles` | src/compiler.c:1019-1049 | From correct parts the bytes of a while loop are correct: forward and backward jumps land on the intended boundaries |
| `Layout.ForCompiles` | src/compiler.c:906-974 | The same for the bytes of a for loop |
| `Simulation.SimWhile` | src/vm.c:1159-1203 | If test, body and backward jump simulate their sources, the loop simulates its own, for every number of turns, normal, broken, continued, failed or endless |
| `Simulation.SimDoWhile` | src/vm.c:1159-1203 | The same for a do-while loop |
| `Simulation.SimFor` | src/vm.c:1159-1203 | The same for a for loop with optional test and increment |
| `Values.ApplyMirror` | src/vm.c:614-628 | Exchanging the operands and the direction of a comparison gives the same answer or the same runtime error, for numbers, text and mixtures |
| `Values.TextOrder` | src/object.c:316-324 | Texts are compared in dictionary order: the smaller one is a proper prefix, or has the smaller byte where the two first differ |
| `Values.NumbersMean` | src/vm.c:1046-1108 | Where the arithmetic is exact for the reals that the numbers stand for, the operators give sum, difference, product, quotient and negation, with the left operand first |
| `Values.OrderMeans` | src/vm.c:1014-1045 | Comparisons of numbers that are ordered as reals are those of the reals |
| `Values.TextsMean` | src/vm.c:1014-1062 | On texts + joins them and comparisons go by dictionary order |
| `Values.OthersMean` | src/vm.c:1014-1108 | On other operands all operators but equality are errors, and values of two kinds are different |
| `Values.TruthMeans` | src/vm.c:1092-1097 | Nil and false are false, everything else is true |
| `Bytecode.DecodeEncode` | src/chunk.h:12-104 | Wherever the bytes of an instruction stand in the code, the machine reads back that instruction with its operands |
| `Functions.FunctionCompiler.Compile` | src/compiler.c:463-512 | A function or script is accepted exactly when no break or continue stands outside of every loop and no closure uses a local in its own initializer. In every run of an accepted function or script no OP_POP, OP_POP_N or other dropping instruction takes a slot that an open upvalue shows; each place before, between and behind the declarations of every list, nested ones included, is a recorded position at which the stack has exactly the declared locals; and however the conditions of if, while, do-while and for turn out, the code computes exactly the values that the source then asks for, in that order, each closure capturing the locals its names mean: it returns when the source ends, and runs on as long as the source does |
| `Flows.StmtDoes` | src/compiler.c:906-1154 | Code laid out for a statement computes what the statement asks for, whatever its conditions hold, and goes where the statement leads: behind it, to the jump of a break or continue, or to a return |
| `Flows.LaidFollows` | src/compiler.c:299-308 | So does the code of a whole function, followed by the return that ends it |
| `Flows.RunsAlong` | src/vm.c:1158-1193 | That is what the run of the code does whose conditional jumps are taken accordingly |
| `Functions.FunctionCompiler.Declarations` | src/compiler.c:1228-1250 | Between declarations the note of the code is the number of locals and those known to be captured; the code so far, and what is noted of it, stays |
| `Functions.FunctionCompiler.EndScope` | src/compiler.c:463-487 | The captured locals of the scope are closed, runs of others are popped, in order from the top; the notes of the code stay right |
| `Functions.FunctionCompiler.CloseLoopLocals` | src/compiler.c:493-512 | The same sequence for the locals of the loop, decided by what is known to be captured at the break or continue, without forgetting the locals |
| `Functions.FunctionCompiler.ResolveUpvalues` | src/compiler.c:648-667 | The slots are those of the innermost locals of the names used, and exactly these become marked as captured |
| `Functions.FunctionCompiler.BreakStatement` | src/compiler.c:1091-1117 | Behind the closed and popped locals the jump leaves the loop at the height at which it was entered |
| `Functions.FunctionCompiler.ContinueStatement` | src/compiler.c:1119-1154 | The same for continue, forward or backward |
| `Functions.FunctionCompiler.LoopTail` | src/compiler.c:1036-1048 | The jump back leads to the start of the loop, and its exit and all its breaks lead behind it |
| `Functions.FunctionCompiler.DoWhileStatement` | src/compiler.c:1051-1088 | The notes stay right when each continue is patched to the condition, and the loop is left at its height |
| `Functions.FunctionCompiler.ForStatement` | src/compiler.c:906-974 | The same for a loop that goes on to its increment, and for the scope around it |
| `Captures.RunsNoted` | src/vm.c:1141-1157 | In code that agrees with its notes, wherever a run is, the stack has the height noted there and the open upvalues show noted slots only |
| `Captures.ClosedGood` | src/compiler.c:1019-1049 | At the end of a loop, adding what its body captures to the notes of the loop keeps every instruction in agreement, with the jumps back included |
| `Activations.Execute` | src/vm.c:1141-1157 | Compiled code run on the machine with its upvalue list: no step finds an open upvalue at or above the slots it pops, the list stays in order, and the variables change as if every variable were a cell of its own |
| `Calls.Runner.Interpret` | src/vm.c:696-1263 | Whole programs with calls, closures, locals and upvalues: after any number of instructions stack, frames, closures, output and status are those of a machine for which every variable is a cell and closures hold cells; no instruction lacks an operand, and no pop takes a slot that an open upvalue shows. It stops before the given number of instructions only at the end of the program, at a full stack or too many calls, or where a function with surplus arguments captures one of its own variables or takes a parameter |
| `Meanings.RunInStep` | src/vm.c:696-1263 | A script that needs no closures and calls runs as its bytes do on the byte machine: after any number of instructions the same values on the stack, the same output, the same end |
| `Meanings.StartInStep` | src/vm.c:1585-1587 | At the start both have the script on the stack and nothing else |
| `Meanings.CallPasses` | src/vm.c:293-319 | The callee begins with its closure in slot 0 and argument i in slot i + 1, nil where there is none; nothing below has changed, and the caller will go on behind the call |
| `Meanings.CallFails` | src/vm.c:342-372 | A call of what is no object fails |
| `Meanings.ReturnGives` | src/vm.c:1247-1263 | The caller finds the result where the callee's closure was, and all below as it was |
| `Meanings.ClosureHolds` | src/vm.c:702-720 | A new closure holds the cells of the variables it captures, its own slot included, and those that its enclosing closure holds |
| `Meanings.UpvaluesShare` | src/vm.c:987-998 | Reading an upvalue gives what its cell holds, and assigning to it changes that cell alone |
| `Meanings.CloseKeepsCell` | src/vm.c:1141-1146 | Closing an upvalue takes the variable off the stack and leaves its cell |
| `Calls.Runner.Execute` | src/vm.c:696-1263 | The same for one instruction |
| `Calls.Runner.ExecCall` | src/vm.c:293-319 | A call pads missing arguments with nil, clears surplus ones and enters the function with the cells of its closure; a callee that is not a closure is an error |
| `Calls.Runner.ExecClosure` | src/vm.c:702-720 | The new closure, itself on the stack already, holds the cells of the variables it captures, its own among them |
| `Calls.Runner.LeaveFunction` | src/vm.c:1247-1263 | The variables of the function leave the stack, closed if captured, and the caller gets the result in place of the callee |
| `Calls.CompiledTyped` | src/vm.c:1141-1157 | Code that the compiler of functions emits and notes is code that this machine runs |
| `Surplus.SurplusArgument` | src/vm.c:311-316 | `fun f() { var x = true; return x; } print f(false);` prints nil, where true is meant |
| `Surplus.MovedStep` | src/vm.c:306-316 | With surplus arguments an instruction about one of the function's own variables does what is meant exactly when that variable and the slot taken for it hold the same value, and an assignment assigns just that value; a capture never does |
| `Surplus.OtherStep` | src/vm.c:306-316 | Every other instruction does what is meant |
| `Surplus.SuitableRun` | src/vm.c:293-319 | As long as every call has at most as many arguments as parameters, or is of a function that is about parameters only, whole runs do what is meant |
| `Upvalues.Machine.CaptureUpvalue` | src/vm.c:415-441 | The open upvalue of the slot, or a new one in its place in the descending list; the variables stay as they are |
| `Upvalues.Machine.CloseUpvalues` | src/vm.c:444-454 | The variables from the slot on leave the stack and no upvalue shows a slot above; every upvalue still shows the cell it was made for, with its value |
| `Upvalues.Machine.GetUpvalue` | src/vm.c:987-992 | Reading an upvalue, open or closed, is reading its variable's cell |
| `Upvalues.Machine.SetUpvalue` | src/vm.c:993-998 | Assigning to an upvalue, open or closed, assigns to that cell, and so to every view of it |
| `Upvalues.Machine.MakeClosure` | src/vm.c:702-720 | Each upvalue of a new closure shows the variable wanted: of the enclosing frame, or of the enclosing closure |
| `Upvalues.Machine.CloseUpvalueAndPop` | src/vm.c:1141-1146 | The variable on top leaves the stack, and whatever captured it keeps it |
| `Upvalues.Machine.Return` | src/vm.c:1247-1263 | The variables of the frame go, none is shown any more, and the result is a new variable of the caller |
| `Lines.LineArray.Write` | src/lineArray.c:15-41 | One more byte has the line; its offset becomes stale exactly when the end of a range left by a rollback claims it for another line |
| `Lines.LineArray.Fallback` | src/lineArray.c:43-60 | The bytes from the target on are forgotten; every offset below it that was no target of a rollback keeps its right answer |
| `Lines.LineArray.GetLine` | src/lineArray.c:68-86 | The binary search finds the line last written for every byte whose offset is no target of a rollback; for any byte exactly when its offset is findable; an offset beyond the last range gives -1 |
| `Lines.LineFound` | src/lineArray.c:68-86 | Where at most one range ends at an offset, its line is found exactly when the offset is not stale; where ranges a to b end, exactly when the one on which the halving of the index range lands has the line |
| `Lines.UntouchedFound` | src/lineArray.c:43-86 | After any interleaving of writes and rollbacks the line last written is found for every offset that is not itself the target of a rollback |
| `Lines.TakenBackKept` | src/lineArray.c:43-60 | A rollback keeps what that rests on, with its target as one more |
| `Lines.WrittenKept` | src/lineArray.c:15-41 | A write keeps it, with no new target |
| `Lines.AnswerMoves` | src/lineArray.c:43-86 | Where two ranges end at an offset, a later rollback to a higher offset turns the right answer there into a wrong one |
| `Lines.WrittenFound` | src/lineArray.c:33-40 | A byte just written is found with its line exactly when the state before the write says so: none of the last ranges ended at its offset, or, with the last c of them ending there, the one on which the halving of the number of ranges lands has the line |
| `Lines.WrittenFoundBehindOne` | src/lineArray.c:33-40 | With at most one range ending there before: exactly when not both the guard chose a new range and the last range already ended at that offset |
| `Lines.StaleOffset` | src/lineArray.c:48-54 | Two bytes of line 1, one taken back, and one of line 2 in its place: the search answers 1 |
| `Lines.StaleAgain` | src/lineArray.c:33-54 | Taken back once more, and line 2 written again: no range is added, and the search still answers 1 |
| `Lines.Chunk.Write` | src/chunk.c:16-28 | A byte and its line are appended |
| `Lines.Chunk.Fallback` | src/chunk.c:30-39 | The last bytes and their lines are taken back; more than there are, none |
| `Lines.Chunk.LineOf` | src/lineArray.c:68-86 | The line of a byte of the code is found if its offset is no target of a rollback, and for any byte exactly when its offset is findable |
| `Slab.Slab.Alloc` | third-party/memAllocator/arena_slab.c:299-367 | A new block of the class of the size, disjoint from all others, which keep their place and size, in an arena whose pages are there; none exactly when the size is too large, or class chain, ring and revive chain are of no help and no arena can be carved |
| `Slab.Slab.LivePresent` | third-party/memAllocator/arena_slab.c:335-355 | The pages of every allocated block are there: at all times exactly the arenas whose pages were given back are marked, and no block is in a marked one |
| `Slab.Slab.Free` | third-party/memAllocator/arena_slab.c:369-424 | Exactly the block is gone; of memory only the link in its first four bytes is written |
| `Slab.Slab.Realloc` | third-party/memAllocator/arena_slab.c:529-548 | In place when the block is large enough; otherwise moved with its bytes, the old block gone; when no block is to be had nothing changes; other blocks keep place, size and bytes |
| `Slab.Slab.Trim` | third-party/memAllocator/arena_slab.c:591-619 | The blocks and their bytes stay; at most 256 emptied arenas remain resident, the most recently parked ones, and the rest go to the revive chain, marked exactly if their pages were given back; all other marks stay, and the answer is the number of bytes given back |
| `Slab.Slab.SmallLayerFree` | third-party/memAllocator/arena_slab.c:369-424 | The slot goes to its arena's free list; the arena stays on its chain, returns to it from the full ones, or leaves it when empty |
| `Slab.Slab.ArenaSlotClaim` | third-party/memAllocator/arena_slab.c:280-295 | The head of the free list, or the next slot of the tail that was never used |
| `Slab.Slab.ReleaseSlot` | third-party/memAllocator/arena_slab.c:369-400 | The freed slot becomes the head of the free list, and the other blocks stay |
| `Slab.Slab.TrimOne` | third-party/memAllocator/arena_slab.c:591-614 | The coldest resident arena moves to the front of the revive chain, marked exactly if its pages were given back |
| `Segments.OnePlace` | third-party/memAllocator/arena_slab.c:155-262 | A carved arena is on one chain at one position, in the ring, on the revive chain, or, being full, nowhere |
| `Segments.FewEmpties` | third-party/memAllocator/arena_slab.c:402-424 | At most two empty arenas stay on a class chain |
| `Segments.LiveDisjoint` | third-party/memAllocator/arena_slab.c:280-295 | Two live blocks do not overlap |
| `Segments.LivePlaced` | third-party/memAllocator/arena_slab.c:280-295 | A live block lies in a carved arena, behind its header |
| `Segments.LiveNotParked` | third-party/memAllocator/arena_slab.c:199-262 | An arena with an allocated block is neither parked in the ring nor given back |
| `Arenas.FullHasNoFree` | third-party/memAllocator/arena_slab.c:299-313 | The counter of free slots is zero exactly when every slot is live |
| `Links.PushChainKeeps` | third-party/memAllocator/arena_slab.c:155-165 | Pushing an arena on a doubly linked chain links it in front; all other headers keep their links |
| `Links.DelinkKeeps` | third-party/memAllocator/arena_slab.c:184-193 | Taking an arena out joins its neighbours, at the head, in the middle and at the end |
| `Links.RingPushKeeps` | third-party/memAllocator/arena_slab.c:199-216 | Pushing an arena into the circular ring makes it the first, also of an empty ring |
| `Links.RingPopTail` | third-party/memAllocator/arena_slab.c:243-248 | Taking the last arena out of the ring keeps it a ring of the others |
| `Blocks.BlockAllocator.ReallocateSlab` | src/memory.c:157-232 | The new block holds the old bytes up to the smaller size, the old one is released once to its owner, the others stay, and the count of allocated bytes is the sum of the sizes, on all paths between slab and heap; a block of the heap stays there, larger sizes go there, and small ones only when the slab is exhausted; a growing request that would pass the threshold first frees the blocks of the objects that a collection finds unreachable, and then sets the threshold |
| `Blocks.ThresholdMeans` | src/gc.c:165-167 | The threshold is twice what is allocated, but not below the size at which collections begin |
| `Blocks.BlockAllocator.Release` | src/memory.c:68-78 | Exactly the block is gone, from the allocator that owns it |
| `Collector.Vm.GarbageCollect` | src/gc.c:147-181 | What remains are exactly the objects reachable from stack, frames, open upvalues and globals, in their order on the list; polarity and threshold are set for the next cycle, and there is no garbage left |
| `Collector.Vm.AllocateObject` | src/object.c:35-49 | The new object, with the mark of the current polarity, joins the list in front; a collection, when due, has kept exactly what was reachable |
| `Collector.Vm.ReserveObject` | src/memory.c:43-66 | A collection runs exactly when the threshold would be passed |
| `Collector.Vm.Mark` | src/gc.c:147-163 | When the gray stack is empty the marked objects of the list are the reachable ones |
| `Collector.Vm.MarkRoots` | src/gc.c:19-36 | Every root is marked |
| `Collector.Vm.Blacken` | src/gc.c:70-114 | Everything the object refers to is marked, and no mark is lost |
| `Collector.Vm.TraceReferences` | src/gc.c:116-121 | The gray stack is emptied and the marks are closed under references |
| `Collector.Vm.Sweep` | src/gc.c:123-145 | The list is what is marked of it, in order |
| `Collector.Vm.MarkedAreLive` | src/gc.c:116-121 | Marked and reachable objects of the list are the same |
| `Collector.Vm.NoGarbageLeft` | src/gc.c:123-145 | After the sweep everything left is reachable among what is left |
| `Heap.ReachableWithin` | src/gc.c:38-68 | A set of marks that has the roots and is closed under references has everything reachable |
| `Heap.ReachableAfter` | src/gc.c:123-145 | What is reachable stays so when only unreachable objects go |
| `Tables.FindEntry` | src/table.c:29-64 | The cell of the key, or the first free one of its probe sequence, tombstones first; with a cached index for globals |
| `Tables.Table.Get` | src/table.c:96-104 | The value that the abstract map has for the key, or none |
| `Tables.Table.Set` | src/table.c:107-123 | The abstract map gets the pair; the answer says whether the key is new; a frozen table stays |
| `Tables.Table.Delete` | src/table.c:126-139 | The abstract map loses the key, and the answer says whether it had it |
| `Tables.Table.AdjustCapacity` | src/table.c:66-93 | Rebuilt without tombstones, the table stands for the same map |
| `Tables.AddAll` | src/table.c:141-149 | The map of the one table is overridden by that of the other |
| `Probing.SearchEnd` | src/table.c:29-64 | Where a probe ends at a hole without having met the key, the table does not have it |
| `Probing.HoleExists` | src/table.c:29-64 | A table below its load limit has a hole, so every probe ends |
| `Probing.MaskIsRemainder` | src/table.c:29-64 | Masking with a power of two less one is the remainder, for every hash |
| `Probing.Advance` | src/table.c:29-64 | The masked step from a cell is the step round the table, for every capacity that is a power of two |
| `Globals.GlobalVariables.GetGlobal` | src/vm.c:928-950 | Through the cached cell or by a full search, what the variables hold |
| `Globals.GlobalVariables.SetGlobal` | src/vm.c:951-972 | Exactly a defined variable is assigned; the attempt on another one leaves all variables as they are; every cached index stays in bounds |
| `Globals.GlobalVariables.DefineGlobal` | src/vm.c:918-927 | The variable is defined or overwritten |
| `StringTables.FindStringEntry` | src/stringTable.c:27-44 | The cell of the string, or the first free one |
| `StringTables.StringTable.SetString` | src/stringTable.c:74-91 | A string joins the pool unless it is in it |
| `StringTables.StringTable.FindString` | src/stringTable.c:112-132 | The interned string with the content, or none exactly when there is none |
| `StringTables.StringTable.FindConcatString` | src/stringTable.c:134-156 | The same for the concatenation of two texts, without building it |
| `StringTables.StringTable.GetStringEntry` | src/stringTable.c:93-110 | The entry of an interned string |
| `Interning.CopyString` | src/object.c:175-283 | The one interned string with the content, unescaped if asked for |
| `Interning.ConnectString` | src/object.c:285-314 | The one interned string with the concatenated content |
| `Interning.UnescapeInto` | src/object.c:175-283 | Copying runs and escapes in turn writes the unescaped text |
| `Interning.UnescapeEscape` | src/object.c:175-283 | Every text is the unescaping of some text: its escaped form |
| `Interning.UnescapeVerbatim` | src/object.c:241-251 | A text in which no backslash is followed by another one, a quote, n or t is its own unescaping: unknown escapes keep both characters |
| `Interning.EscapesShorten` | src/object.c:232-240 | Any other text is not: each escape takes a byte less |
| `Interning.EscapesMean` | src/object.c:230-240 | An escaped backslash or quote is that character, n a line feed and t a tab |
| `NumberTables.FindNumberEntry` | src/numberTable.c:26-43 | The cell of the bit pattern, or the first free one |
| `NumberTables.NumberTable.GetNumberEntry` | src/numberTable.c:78-99 | The entry of the bit pattern, new or old, with its index |
| `Constants.ConstantPool.MakeConstant` | src/compiler.c:310-336 | The index holds the value; a number or string is added exactly when the pool lacks it, other values always |
| `Constants.ConstantPool.KeptOnce` | src/compiler.c:310-336 | Two indices hold the same number or string only if they are the same |
| `Hashing.MurmurHash64Bits` | src/hash.c:20-63 | The loop over blocks and tail computes the hash |
| `Hashing.HashStream.Update` | src/hash.c:91-106 | The bytes fed so far grow by the segment, whatever block boundaries it crosses |
| `Hashing.HashStream.Finalize` | src/hash.c:108-127 | The hash of all bytes fed, when they are as many as announced |
| `Hashing.HashPieces` | src/hash.c:84-127 | For every split of a text into segments the streamed hash is the hash of the whole |
| `Hashing.GatheredIsLittleEndian` | src/hash.c:20-63 | The fall-through of the tail gathers the last bytes as a little-endian word |
| `Mixing.OneBlockApart` | src/hash.c:20-63 | Two texts of one length that differ in one block of eight bytes, or only behind the last block, never share a hash |
| `Mixing.RoundApart` | src/hash.c:30-41 | A round keeps apart different states and different blocks |
| `Mixing.MixApart` | src/hash.c:33-35 | The mixing of a block is a permutation of the 64-bit words |
| `Mixing.FmixUndone` | src/hash.c:11-18 | The finish is undone by the inverse steps, so it is a permutation too |

## Left out

- Bytecode.DecodeEncode: the opcodes for calls, properties, subscripts, objects, closures, upvalues and classes (src/chunk.h:12-104) have no instruction in the compiler model; closures and upvalues are in Captures, Functions and Upvalues, with operands but without bytes.
- Compiler.Compiler.Compile: functions, calls, classes, properties, subscripts and object literals are not part of the source language modelled there. Its condition asks the initializer of a local to be safe before a pop even where no pop follows directly. That an accepted script has no operation that is an error for its constants is not stated.
- Compiler.Compiler.EndScope: in the compiler model no local is captured, so it has no OP_CLOSE_UPVALUE; Functions.FunctionCompiler.EndScope has.
- Functions.FunctionCompiler.Compile: an expression is the set of names its closures use, with one value as its outcome; closures made while other operands are on the stack, default limits on locals and upvalues, and duplicate names, which only reject programs, are left out. Which script is compiled to which program of Calls is stated for this part only (Calls.CompiledTyped).
- Calls.Runner.Interpret: the model ends where a function with surplus arguments captures one of its own variables, since the upvalue then shows another slot than the one closed; instances, methods, native functions, globals and properties have no instruction there; a program agrees with its notes.
- Collector.Vm.AllocateObject: strings, native functions and function prototypes are allocated outside the swept list; freeing the payload of each kind of object is one step.
- Blocks.BlockAllocator.ReallocateSlab: which objects a collection frees is a parameter, any set of blocks but the one being resized; Collector says which they are.
- Slab.Slab.Alloc: calloc, the bump arena, statistics, and the start-up and shut-down of the segment; the operating system answers by flags for commit and reuse, and a dropped page holds arbitrary bytes.
- Slab.Slab.Free: freeing a block twice, or using it after it is freed, is undefined and excluded, as the allocator demands of its clients.
- Constants.ConstantPool.MakeConstant: the pool is taken to have fewer than 2 to the 32 less one entries.
- Interning.CopyString: allocation of the string object itself, and the collection it could start.
- Lines.LineArray.Write: 32-bit wrap-around of lines and offsets.
- Scanner, parser and error recovery: compilation starts from syntax trees; nesting limits and error texts are not modelled.
- NaN boxing, compressed object headers, number printing and the floating-point functions themselves: numbers are 64-bit patterns with abstract arithmetic, in which equality is symmetric and greater-than is less-than exchanged.
- Stack overflow: the machine of the compiler model has an unbounded stack; Calls.Runner.Interpret and Activations.Execute stop at a full one.
- 32-bit wrap-around of capacities, counters and lengths: integers are unbounded, but for the hash and for 16-bit jump and constant operands.
- Direct-threaded dispatch, debugging, statistics, the interactive prompt, file reading and native functions.
