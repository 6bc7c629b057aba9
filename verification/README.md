# opsh: verified model

opsh is a POSIX-style shell. It compiles a syntax tree in one pass to byte code, patching jump offsets as it goes, and
runs the bytes on a stack machine. This project models that core and the structures around it in Dafny and proves what
they are for.

## What is modelled

| files | subject |
|---|---|
| `Bytes`, `Bytecode`, `Ast` | bytes and little-endian words, opcodes, the syntax tree |
| `Vm` | the machine: operand stack, call frames, jumps over a buffer of real bytes, every case of the dispatch loop that the modelled programs use |
| `Emit`, `CodeBuffer`, `Compiler`, `Accepts`, `Shell` | the layout of a program's code as a function of the tree, and the single-pass compiler as a class that appends bytes, leaves four-byte holes, keeps a loop stack with patch lists and is proved to produce that layout |
| `Semantics` | the meaning of a tree by structural recursion, in the style of section 2.9.4 of the POSIX Shell Command Language, without any code |
| `Runs`, `Words`, `Wellformed`, `Simulation`, `Programs` | the machine on the compiled bytes does what the meaning says |
| `Boundaries`, `JumpTargets`, `LoopJumps` | instruction boundaries and where jumps go |
| `LoopCounts`, `Quoting`, `Commands`, `Functions` | what compiler and meaning have in common, fixed without it: which words are loop jumps and how many loops they leave, what quotes do, negation, assignments, `exec`, local names, the function table, and the limits |
| `Ledger` | what a run leaves behind, counted along its meaning: scopes, redirection frames, suppressions of errexit |
| `Tidy`, `Errexit`, `Nesting` | `set -e`: the exact count of what stays raised, programs that stay inside their conditions, and an evaluator without a counter |
| `Frames`, `Returns`, `Undoing`, `StaticScripts` | scopes, redirection frames and descriptors over whole runs: what a run leaves open, and programs that leave nothing open |
| `Scopes` | the chain of variable scopes |
| `Int64`, `Arith`, `ArithFacts`, `ArithTrees`, `ArithCorrect`, `ArithState`, `ArithLaws`, `ArithTexts` | the arithmetic evaluator: laws of its operators, precedence, literals and limits, its functions on text, the class that reads in place, and its correctness against expression trees |
| `HashTable` | open addressing with doubling and backward-shift deletion |
| `ImageFile`, `ImageStreams`, `SavedPrograms` | the `.opsb` image format, writer and reader, and compiled programs in it |
| `Redirections` | the descriptor table and its saved copies |
| `Sessions`, `SessionTable` | the parent and child protocol of the serve mode |
| `Jobs` | the job table |
| `FieldSplit` | field splitting |

Commands themselves are opaque: the world a command sees is an abstract type, and a host (a record of functions) says
what builtins, external commands, variables, expansions, redirections and tests do to it. All results about programs
hold for every host. Fuel in the meaning bounds loop rounds and calls only; `HaltsExactlyIf` speaks of every bound.

A program is well-formed (`Wellformed`) when its operands fit their fields and its loop jumps stay in their function body.
The compiler itself and the instruction boundaries are proved without that restriction. Statements about the meaning of a
program are statements about its code for every well-formed program, by `Programs.Preservation`.

Some results assume laws of the host, each a predicate that is a hypothesis of the lemmas that use it:
`Tidy.ReturnsByName` (only the builtins `return`, `eval`, `source`, `.` and `command` ever make the machine return; `command`
is among them because it runs other builtins itself), `Frames.Levels` (which operations open and close scopes) and
`Undoing.TableLaws` (which operations touch the descriptor table, and how). A `return` in a signal trap is not part of this
model.

## What the code does that its reader may not expect

- `continue` aimed at while or until runs the whole program again from offset 0, and inside a function without leaving the
  call (`LoopJumps.ContinueReaches`, `Simulation.SimRestart`).
- `;&` goes on to test the next patterns, as `;|` does (`Simulation.SimArms`).
- A function call under `set -e` looks at the status left by the previous command, so `false || f` ends the shell before
  f runs (`Errexit.FallbackNeverRuns`).
- A loop jump or return out of a condition, a non-last and-or member or a negated command leaves the errexit counter
  raised for good, by one for each such region, and nothing else does (`Errexit.KeptProgram`, `Errexit.EscapeLeaks`,
  `Errexit.MemberLeaks`).
- An event of a reused process number goes to an older job with that number, even if it is done (`Jobs.ReachesExactlyIf`).
- A program with a function whose name occurs nowhere as a constant compiles, but its image cannot be written
  (`SavedPrograms.CompileAndWrite`).
- Every `return` leaves at least one of the 64 redirection frames open, so a program that does nothing but call a returning
  function is stopped with status 1 in its 64th call (`Frames.ReturnLeavesFrame`, `Returns.SixtyFourthCallStops`).
- Each open call holds one of the 64 redirection frames, so endless recursion is stopped by them and not by the call stack,
  which has room for 256 (`Returns.RecursionStops`).
- A DUP may take a saved copy for a descriptor of the command, if its target is closed (`Redirections.ListDoes`).
- A `return` under a prefix assignment closes the wrong scope (`Frames.ScopedReturnLeaks`, `Frames.CallKeepsScopesIf`).
- A prefix assignment to a readonly name exports that name outside (`Scopes.PrefixesUndone`).
- A zero divisor in an operand that is only read ends the multiplication it stands in. If that goes on behind it, a valid
  expression becomes an error (`ArithCorrect.SkippedZeroFails`), or, on the right side of an assignment, gets a wrong value
  without an error (`ArithCorrect.RescuedValue`).
- After a new job is added and removed again there is no previous job (`Jobs.AddThenRemove`).
- An arithmetic operator with nothing behind it is no error: `1 +` is 1 and `2 *` is 0 (`ArithTexts.DanglingIsZero`).
- The smallest 64-bit number cannot be stored and read back (`ArithCorrect.StoredReadsBack`).
- A here-document for the lowest free descriptor closes it and leaves a copy behind after the restore
  (`Redirections.StepUndone`).
- IFS blanks before another IFS character, and such a character at the end, give fields that POSIX does not have
  (`FieldSplit.PosixExactlyIf`).
- The first copy of a while condition is compiled outside the loop, so a `break` in it is aimed further out than the same
  `break` in the second copy (`Compiler.Compiler.CompileWhile`).

## Model

| member | source | states |
|---|---|---|
| `Programs.Preservation` | src/compiler/compiler.c:812-1100 | Semantic preservation: for every well-formed program, also one that aims `continue` at a while-loop, every host and start state, the compiled bytes run from offset 0 stop in exactly the state (world, `$?`, errexit counter, redirection frames) of the big-step meaning of the tree, and go on for at least as many steps as the meaning needs fuel |
| `Programs.HaltsExactlyIf` | src/vm/vm.c:500-2849 | The run stops in a state exactly if the meaning of the program is that state for some fuel; so it diverges exactly if the meaning does |
| `Programs.NeverAborts` | src/vm/vm.c:431-495 | In every run of the image of a well-formed program no instruction underflows the operand stack or reads past the end of the code |
| `JumpTargets.JumpsLandOnInstructions` | src/compiler/compiler.c:55-80 | In the image of any program under 2^31 bytes, also one whose `continue` is aimed at a while-loop, the bytes are whole instructions from 0 to the end and every jump decodes to an instruction boundary inside the code |
| `Boundaries.CondSeg` | src/compiler/compiler.c:1364-1434 | The code of a `[[ ]]` expression is whole instructions and its short-circuit jumps stay on their boundaries |
| `JumpTargets.CmdSeg` | src/compiler/compiler.c:1444-1511 | The same for the code of every command: each jump stays inside on a boundary or goes to a target of an enclosing loop |
| `Simulation.SimCmd` | src/compiler/compiler.c:1444-1511 | The code of any command, in any context of loops, calls and operands below it, takes the machine where the meaning of the command says: behind the code, to a loop target, behind the call, or to a stop |
| `Simulation.SimClauses` | src/compiler/compiler.c:812-864 | if, elif and else: the machine on their code follows the meaning, with status 0 when no branch is taken |
| `Simulation.SimFor` | src/compiler/compiler.c:872-950 | A for-loop runs its body once for each item with the iterator on the operand stack, which is gone afterwards; no items leave the status alone |
| `Simulation.SimWhile` | src/compiler/compiler.c:956-1019 | while and until: one copy of the condition in front and one behind the body; a loop never entered ends with status 0, any other with the status of its condition |
| `Simulation.SimArms` | src/compiler/compiler.c:1024-1100 | A case command tries the items in order; an item that does not end with `;;` goes on testing the patterns that follow |
| `Simulation.SimAndOr` | src/compiler/compiler.c:1580-1616 | And-or lists: a skipped member leaves the status for the next connector, and all but the last run with errexit suppressed |
| `Simulation.SimPipe` | src/compiler/compiler.c:1516-1536 | A negated command runs with errexit suppressed and its status is inverted |
| `Commands.NegatedStatus` | src/compiler/compiler.c:1525-1536 | A negated command turns status 0 into 1 and every other status into 0, and changes nothing else |
| `Commands.NegatedTest` | src/compiler/compiler.c:1364-1434 | So does `!` in brackets; two of them give 0 for a test that holds and 1 for one that does not |
| `Commands.AssignedValue` | src/compiler/compiler.c:659-682 | The value of an assignment is its spelled-out beginning and the text of the rest, with a tilde at the very beginning expanded |
| `Commands.AssignmentStores` | src/compiler/compiler.c:683-693 | An assignment alone goes to the innermost scope for a name declared local, and along the chain for any other; outside functions no name is local |
| `Commands.FinishUndoes` | src/compiler/compiler.c:794-807 | A command that goes on gives its redirections back, unless it is the word `exec` alone; the scope of its assignments is closed in both cases |
| `Commands.LocalExactlyIf` | src/compiler/compiler.c:1113-1228 | A function treats a name as local exactly if some `local` in its body, nested functions aside, has a word that is spelled with that name, alone or in front of `=` |
| `Commands.CallLimit` | src/vm/vm.c:1879-1925 | Below 256 open calls the body of a function is run, from the 256th on the shell stops with status 1 |
| `Commands.ItemLimit` | src/vm/vm.c:1316-1342 | A for-loop over more than 1024 items stops the shell with status 1 |
| `Simulation.SimSimple` | src/compiler/compiler.c:514-807 | Simple commands: temporary scope, assignments, redirections, words and dispatch, in that order, and their undoing |
| `Simulation.SimLoopJump` | src/compiler/compiler.c:520-577 | break and continue n, clamped to the depth, in a well-formed program: the machine arrives at the target of the n-th enclosing loop with exactly the iterators of the loops inside it popped, or, for a continue aimed at while or until, runs the program again |
| `Simulation.SimRestart` | src/compiler/compiler.c:980-1002 | From offset 0, in the middle of any loops and calls, the machine does what the whole program means there: off its end it halts, and a return in it ends the function that was running |
| `Simulation.SimCall` | src/vm/vm.c:1853-1952 | A call that ends by RET or by return, at any depth of loops, gives back the operand stack, the call depth and the instruction pointer of just after its arguments were popped |
| `LoopJumps.JumpReaches` | src/compiler/compiler.c:520-577 | The code of a loop jump in any context ends at the target of exactly the loop `count` levels out, or of the outermost one, having popped exactly the iterators of the loops strictly inside it |
| `LoopJumps.ContinueReaches` | src/compiler/compiler.c:980-1002 | `continue` of any count in any context reaches the next iteration of the loop it is aimed at exactly if that is a for-loop, and offset 0 otherwise, with exactly the iterators inside the target popped |
| `LoopJumps.AimsInFor` | src/compiler/compiler.c:914-927 | Inside a for-loop the continue targets are those outside it and the top of the loop |
| `LoopJumps.AimsInWhile` | src/compiler/compiler.c:980-1002 | Inside a while- or until-loop, its body and the second copy of its condition, the new continue target is 0, because jumps are patched before the target is set |
| `LoopCounts.FirstCommandJumps` | src/compiler/compiler.c:520-527 | A for-loop over any words, with any items, on any host: with the word `break` in front of its body the body is begun once, with `continue` once for each item, and what stands behind the word never runs |
| `LoopCounts.BreakLeavesWhile` | src/compiler/compiler.c:956-1019 | while and until: with `break` in front of the body the condition is evaluated once, its status is kept, and the loop is over |
| `LoopCounts.NestLeaves` | src/compiler/compiler.c:529-569 | In d nested for-loops over any items, `break` with any spelling of a count n >= 1 leaves exactly min(n, d) loops and the others go on with their next items; `continue` leaves one fewer and goes on with the next item of the loop it is aimed at |
| `LoopCounts.NestOnMachine` | src/compiler/compiler.c:520-577 | The same for the compiled bytes on the machine, from any start state |
| `LoopCounts.JumpMeans` | src/compiler/compiler.c:520-577 | Anywhere inside loops the command leaves the loop n levels out, or the outermost one, and what stands behind it does not run |
| `LoopCounts.CountTaken` | src/compiler/compiler.c:529-551 | Inside a loop a spelled-out count is accepted exactly if it is blanks, perhaps a plus sign, and decimal digits that are not all 0 |
| `LoopCounts.NestAccepted` | src/compiler/compiler.c:83-93 | A jump is refused outside loops, and for-loops may be nested 64 deep and no deeper |
| `LoopCounts.OrdinaryCommand` | src/compiler/compiler.c:514-807 | Every command whose first word is not spelled `break`, `continue` or `lib::import` is prepared, looked up, run and finished |
| `Quoting.WordGives` | src/compiler/compiler.c:356-406 | What a word gives, in every case: `"$@"` alone the arguments of the shell, a word with an unquoted parameter the split of its text, one without but with an unquoted `*`, `?` or `[` the matches of its text, any other word exactly one argument, the text of its units; an unquoted tilde in front is expanded first |
| `Quoting.QuotedIsOne` | src/compiler/compiler.c:360-369 | A word of quoted units other than a lone `"$@"` is exactly one argument, the concatenation of its units, whatever they hold |
| `Quoting.QuotedArgv` | src/compiler/compiler.c:736-760 | A list of such words gives as many arguments as words, each the text of its word |
| `Quoting.QuotedArgsRun` | src/compiler/compiler.c:736-763 | On the machine the code of such words leaves one string for each of them and their number on the operand stack |
| `Words.PushWord` | src/compiler/compiler.c:345-352 | The code of a word of literals, variables and special parameters nets exactly one value, the concatenation of its units |
| `Words.PopGroupsOf` | src/vm/vm.c:1147-1190 | COLLECT_WORDS pops exactly what the word groups pushed and keeps their order |
| `Words.PushArgs` | src/compiler/compiler.c:736-760 | The words of a command leave its argument vector and its length on the operand stack, whatever lies below |
| `Words.RunAssigns` | src/compiler/compiler.c:656-695 | Assignments are made from left to right, in the temporary scope and exported when there is a command, else in the local or global variable |
| `Words.RunRedirs` | src/compiler/compiler.c:461-506 | The redirections of a command are applied in order and leave the operand stack as it was |
| `Words.RunTest` | src/compiler/compiler.c:1364-1434 | The code of a `[[ ]]` expression gives the status of its and/or/not meaning |
| `Runs.DecodeConst` | src/vm/vm.c:459-482 | An instruction with a pooled string decodes to the index of that string |
| `Runs.DoJump` | src/vm/vm.c:484-498 | A jump compiled for a target goes there exactly if its condition holds, else to the next instruction |
| `Bytes.I32RoundTrip` | src/vm/vm.c:135-147 | A jump offset survives being written to and read from the code buffer exactly if it fits 32 bits |
| `Bytes.Le32RoundTrip` | src/serve/child.c:38-41 | Four little-endian bytes read back as the number modulo 2^32 |
| `Bytes.LowByteFirst` | src/vm/vm.c:128-143 | The low byte comes first: a number below 256 is that byte and zeros |
| `Bytes.LowHalfFirst` | src/vm/vm.c:128-143 | Four bytes are those of the low half and then those of the high half |
| `Compiler.Compiler.AddConst` | src/vm/vm.c:69-95 | A constant is added to the pool once; all cells that refer to constants keep their meaning; a full pool is refused |
| `Compiler.Compiler.EmitJump` | src/compiler/compiler.c:55-65 | A jump is appended with a four-byte hole that is noted as open |
| `Compiler.Compiler.PatchTo` | src/compiler/compiler.c:67-75 | Patching fills exactly one hole with the offset of the target announced for it and touches no other byte |
| `Compiler.Compiler.PushLoop` | src/compiler/compiler.c:83-93 | A loop is opened, unless 64 are open |
| `Compiler.Compiler.PopLoop` | src/compiler/compiler.c:95-111 | Closing a loop patches all of its break jumps to the current end of the code |
| `Compiler.Compiler.CompileWord` | src/compiler/compiler.c:122-223 | The bytes appended for a word of literals, variables and special parameters are its layout, with the units concatenated at the end |
| `Compiler.Compiler.CompileCommand` | src/compiler/compiler.c:698-807 | The bytes appended for a command with words and plain assignments are its layout, with builtins and functions bound to their indices |
| `Compiler.Compiler.CompileLoopJump` | src/compiler/compiler.c:520-577 | The bytes of break and continue are their layout; a break is entered in the patch list of its loop |
| `Compiler.Compiler.CompileIf` | src/compiler/compiler.c:812-864 | The bytes appended for an if command, with every forward jump patched, are its layout |
| `Compiler.Compiler.CompileFor` | src/compiler/compiler.c:872-950 | The same for a for-loop, with its break jumps patched when it is closed |
| `Compiler.Compiler.CompileWhile` | src/compiler/compiler.c:956-1019 | The same for while- and until-loops; the first copy of the condition is compiled before the loop is opened |
| `Compiler.Compiler.CompileCase` | src/compiler/compiler.c:1024-1100 | The same for a case command and its items |
| `Compiler.Compiler.CompileFuncDef` | src/compiler/compiler.c:1239-1281 | A function body is compiled in place behind a jump over it, and its name and offset enter the function table |
| `Functions.FunctionsOf` | src/compiler/compiler.c:1239-1281 | The function table of a program holds its definitions as they are written, in that order, each with its own body; a body is compiled knowing exactly the functions above it and itself, and as local exactly the names some `local` in it declares |
| `Functions.FunctionLimit` | src/compiler/compiler.c:1249-1253 | A program may define 512 functions and no more |
| `Compiler.Compiler.CompileCond` | src/compiler/compiler.c:1364-1434 | The bytes of a `[[ ]]` expression with its short-circuit jumps patched are its layout |
| `Compiler.Compiler.CompileList` | src/compiler/compiler.c:1580-1616 | The bytes of an and-or list with its short-circuit jumps patched are its layout |
| `Compiler.Compiler.CompileCmd` | src/compiler/compiler.c:1444-1511 | For every command of the tree the single pass appends exactly the layout, and fails exactly if the program is one it does not accept or the constant pool is full |
| `Shell.Compile` | src/compiler/compiler.c:1768-1820 | The whole pass: the result has no hole left and holds the layout of the program, whatever its jumps are aimed at; for a well-formed program it is a loaded image; a refusal means a misplaced loop jump or a limit exceeded |
| `Nesting.CounterIsNesting` | src/vm/vm.c:2798-2845 | On tidy scripts the meaning is that of an evaluator that has no counter but is told the dynamic number of enclosing conditions, non-last members and negations, across calls; `set -e` stops its shell exactly when that number is zero; and the counter at the end is that number again |
| `Nesting.AgreeCmd` | src/compiler/compiler.c:819-828 | The same inside any command in any context: wherever a command begins or the run goes on, the counter is the number of regions around it, and no jump or return leaves a region |
| `Nesting.NestResolve` | src/vm/vm.c:2838-2845 | Builtins, external commands and calls: the machine's test of the counter is the test whether any region encloses the command |
| `Errexit.ConditionsIgnoreErrexit` | src/compiler/compiler.c:819-828 | Switching `set -e` off for good changes nothing about the meaning of any condition of if, elif, while or until, also one that is left by a jump or a return |
| `Errexit.MembersIgnoreErrexit` | src/compiler/compiler.c:1588-1618 | Nor about the meaning of a member of an and-or list other than the last, nor of a negated command |
| `StaticScripts.RaisedRun` | src/vm/vm.c:2838-2845 | On the machine, for every well-formed program: a run that starts with a raised counter stops in the same states as with `set -e` off for good |
| `Errexit.KeptProgram` | src/vm/vm.c:2798-2806 | For every script, with no assumption: wherever the run goes on, the counter has grown by exactly the number of times a condition, a member before the last one or a negated command was left by a jump or a return, through calls and restarts; and if it was raised, errexit plays no part at all |
| `Errexit.RestoredExactlyIf` | src/compiler/compiler.c:967-997 | So the counter is restored exactly if that number is zero, and is never lower than before |
| `Errexit.EscapeLeaks` | src/compiler/compiler.c:819-828 | A condition leaves behind what its commands do, and one suppression more exactly if it is left by a jump or a return |
| `Errexit.MemberLeaks` | src/compiler/compiler.c:1588-1618 | So does a member before the last one and a negated command; a negated member that is left so leaves two behind |
| `Errexit.CallNeedsCleanStatus` | src/vm/vm.c:1853-1925 | Under `set -e`, outside every suppressed region, a function body starts to run exactly if the status left by the command before the call is 0 |
| `Errexit.FallbackNeverRuns` | src/vm/vm.c:2838-2845 | Hence, with `set -e` in force when f is called, in an or-list of a command c and a function f, f never runs: a failing c ends the shell with its status |
| `Nesting.TidyRestores` | src/compiler/compiler.c:967-997 | After each of its commands a tidy script has the counter it had before, also in conditions and loops |
| `Nesting.TidyLeaksNothing` | src/compiler/compiler.c:967-997 | In tidy code that number is zero wherever the run goes on |
| `Errexit.LeakyLoopLeaks` | src/compiler/compiler.c:1588-1618 | `for v in a; do break && break; done` raises the counter by one for good, on every host and in every state |
| `StaticScripts.TidyRun` | src/vm/vm.c:500-2849 | The machine on the image of a tidy program, started with any counter: it stops as the evaluator without a counter says, and off its end with the counter it started with |
| `Frames.FrameProgram` | src/vm/vm.c:1438-1456 | For every well-formed program: from start to end the open scopes and redirection frames grow by exactly what the ledger counts (returns under a prefix assignment; returns, bare execs, and jumps out of redirected commands), less the function's own scope after a return; scopes by nothing if no return stands under a prefix assignment, frames by nothing if the program is contained |
| `Frames.CallFrames` | src/vm/vm.c:1701-1731 | A call that comes back, by RET or by return at any depth, has left open exactly the scopes and frames its ledger counts |
| `Frames.CallKeepsScopesIf` | src/vm/vm.c:1622-1641 | A call that comes back is in the scope it was called in exactly if no return fired under a prefix assignment in it, and is never in an outer one |
| `Frames.ScriptKeepsScopes` | src/vm/vm.c:1438-1456 | A well-formed script without a possible return under a prefix assignment is in the scope it started in after each of its commands and at its end |
| `Frames.ContainedKeepsFrames` | src/vm/vm.c:2562-2592 | A command without return, bare exec and jumps out of a redirected command gives back every redirection frame |
| `Frames.ReturnLeavesFrame` | src/vm/vm.c:1622-1641 | Every call that ends by return has a redirection frame more open afterwards than before, since return skips the REDIR_RESTORE of its own command |
| `Returns.SixtyFourthCallStops` | src/vm/vm.c:2562-2572 | The bytes of `f() { return; }` followed by n calls of f, on the machine: up to 63 calls return and leave n frames open, the 64th ends the shell with status 1 |
| `Returns.RecursionStops` | src/vm/vm.c:2562-2572 | The bytes of `f() { f; }; f` on the machine, on every host: the run stops with status 1 with 64 frames open, one for each open call |
| `Frames.ScopedReturnLeaks` | src/vm/vm.c:1622-1641 | A function whose body returns under a prefix assignment: the return closes the prefix's scope instead of the function's, and the call ends exactly one scope too deep |
| `StaticScripts.LedgerRun` | src/vm/vm.c:500-2849 | On the machine, for every well-formed program that runs off its end: the errexit counter, the redirection frames and the scopes have grown by exactly what the ledger counts |
| `StaticScripts.KindRun` | src/vm/vm.c:500-2849 | On the machine: no scopes are left open by a program without returns under prefix assignments, no frames by a contained one |
| `Scopes.Environ.Find` | src/exec/variable.c:57-67 | The innermost scope that binds a name is found |
| `Scopes.Environ.Lookup` | src/exec/variable.c:57-67 | environ_get returns the innermost binding |
| `Scopes.Environ.SetFlags` | src/exec/variable.c:84-107 | A variable is set in the innermost scope unless it is readonly there or visible as readonly in a parent |
| `Scopes.Environ.AssignVar` | src/exec/variable.c:109-134 | The innermost binding is changed, or one is created in the outermost scope; a readonly one stays |
| `Scopes.Environ.SetLocalVar` | src/exec/variable.c:136-146 | The innermost scope is set whatever the parents say |
| `Scopes.Environ.ExportVar` | src/exec/variable.c:148-154 | The innermost binding gets the export flag |
| `Scopes.Environ.UnsetVar` | src/exec/variable.c:203-218 | The innermost binding is removed unless it is readonly |
| `Scopes.Environ.PushScope` | src/vm/vm.c:1438-1443 | A new innermost scope without bindings |
| `Scopes.Environ.PopScope` | src/vm/vm.c:1445-1456 | The innermost scope is dropped, unless it is the global one |
| `Scopes.SetReads` | src/exec/variable.c:84-107 | Setting a name touches the innermost scope only: the name reads as the new value with the flags it had there added, every other name as before, and nothing changes if the name is readonly |
| `Scopes.LocalReads` | src/exec/variable.c:136-146 | `local` takes effect even on a readonly name, in the innermost scope only, and keeps the flags |
| `Scopes.UnsetReads` | src/exec/variable.c:203-218 | Unsetting uncovers the next binding further out; a readonly name and all other names are as before |
| `Scopes.ExportReads` | src/exec/variable.c:148-154 | Exporting adds the flag to the innermost binding; every other scope and name is as before, and an unset name stays unset |
| `Scopes.AssignReads` | src/exec/variable.c:109-134 | After an assignment the name reads as the new value, unless it was readonly, and every other name as before |
| `Scopes.AssignLeavesOthers` | src/exec/variable.c:109-134 | Every scope but the innermost one that binds the name, or the outermost one if none does, is unchanged |
| `Scopes.PinnedStep` | src/exec/variable.c:84-218 | One operation keeps a readonly binding and its value exactly if it is not `local` in that scope with another value, nor the end of that scope |
| `Scopes.ReadonlyKept` | src/exec/variable.c:57-154 | Over every sequence of operations a readonly binding keeps its value, unless `local` overwrites it in its own scope or that scope ends |
| `Scopes.PrefixesUndone` | src/compiler/compiler.c:594-697 | Push scope, prefix assignments with exports, pop scope: all that can remain is the export flag on names that are readonly outside |
| `Scopes.PrefixesRestored` | src/vm/vm.c:1430-1463 | So outer bindings and flags are restored exactly if the assigned names that are readonly outside were exported already |
| `ArithCorrect.EvaluatesTree` | src/vm/arith.c:624-654 | On the text of any expression tree, with or without the closing parenthesis, in every environment in which the variables the tree reads hold numbers: there is no error exactly if the tree is read to a value, and then value and environment are those of the tree, zero divisors in skipped operands included |
| `ArithCorrect.EvaluatesMeaning` | src/vm/arith.c:106-622 | Wherever reading halts nowhere there is no error exactly if the usual short-circuit meaning is defined, and then value and environment agree with it; a zero divisor in a skipped operand does no harm by itself |
| `ArithCorrect.ErrorFreeExactlyIf` | src/vm/arith.c:317-322 | For trees without assignments there is no error exactly if the meaning is defined and no zero divisor in a skipped operand is the left operand of a further multiplication |
| `ArithTrees.EvalIsMeaning` | src/vm/arith.c:504-596 | Reading the skipped operands of logical and, logical or and the conditional in noexec mode makes no difference to value and environment, unless reading halts |
| `ArithTrees.HaltFails` | src/vm/arith.c:317-322 | A zero divisor in a skipped operand with more of its multiplication behind it is an error, if it is not on the right side of an assignment |
| `ArithCorrect.Reads` | src/vm/arith.c:302-622 | At every level, the text of an operand is read up to exactly its end, with the value of its tree, whatever follows it |
| `ArithCorrect.ReadsBin` | src/vm/arith.c:302-554 | Binary operators are read left-associatively at their own precedence |
| `ArithCorrect.ReadsCond` | src/vm/arith.c:558-596 | Conditional expressions are read to the right, one branch of them without effect |
| `ArithCorrect.ReadsAsg` | src/vm/arith.c:155-162 | An assignment yields and stores the value of its right side; what is left unread of that side is read by the levels around the assignment |
| `ArithCorrect.Climbs` | src/vm/arith.c:302-596 | From a value in front of any remainder, the levels above it take its operators one after the other, with the result of the tree |
| `ArithCorrect.ReadsOpAsg` | src/vm/arith.c:164-229 | A compound assignment reads the variable first, then its right side, and stores the combination |
| `ArithCorrect.NumberDecimal` | src/vm/arith.c:127-132 | A decimal literal is read to its end, with its value cut off at the largest 64-bit number |
| `ArithCorrect.StoredReadsBack` | src/vm/arith.c:45-85 | A 64-bit value stored in a variable that is not readonly is read back as itself, but the smallest one as its successor |
| `ArithCorrect.ResolveStored` | src/vm/arith.c:45-74 | A variable that holds a number is resolved to it below the depth limit, whatever the other variables hold, with no effect |
| `ArithCorrect.SelfReference` | src/vm/arith.c:45-50 | A variable whose value is its own name ends in the depth error, from whatever depth |
| `ArithCorrect.ZeroEnds` | src/vm/arith.c:314-322 | In an operand that is only read, a zero divisor of any form ends the multiplication at once with value 0, whatever follows |
| `ArithCorrect.SkippedZeroFails` | src/vm/arith.c:317-322 | `0 && 1 / 0 * 2` means 0 but is reported as an error |
| `ArithCorrect.RescuedValue` | src/vm/arith.c:155-162 | `(x = 1 &#124;&#124; 1 / 0 * 2)` means 1 and sets x to 1, but its value is 2, with no error |
| `ArithFacts.FactsParse` | src/vm/arith.c:246-622 | On every text, environment and level: the cursor stays inside the text, noexec mode leaves the environment alone, an error is never forgotten, no scope is opened or closed |
| `ArithFacts.SkippedIsPure` | src/vm/arith.c:77-85 | Reading in noexec mode, through every level and through variables, leaves the environment unchanged |
| `ArithFacts.ShortCircuitPure` | src/vm/arith.c:504-554 | The right operand of logical and after 0, and of logical or after anything else, has no effect |
| `ArithFacts.CursorInside` | src/vm/arith.c:23-28 | What the evaluator has not read is always a tail of the text |
| `ArithState.Evaluator.SkipWs` | src/vm/arith.c:23-28 | skip_ws stops at the first character that is not blank |
| `ArithState.Evaluator.ParseIdent` | src/vm/arith.c:88-103 | parse_ident takes the longest name |
| `ArithState.Evaluator.SetVar` | src/vm/arith.c:77-85 | Stores the decimal text, and nothing in noexec mode |
| `ArithState.Evaluator.ResolveVar` | src/vm/arith.c:45-74 | Evaluates the text of the variable one level deeper, ending at the depth limit |
| `ArithState.Evaluator.ParsePrimary` | src/vm/arith.c:106-243 | Does what the function on the text says and gives the noexec flag back |
| `ArithState.Evaluator.ParseNamed` | src/vm/arith.c:135-236 | The same for steps, assignments and plain names |
| `ArithState.Evaluator.ParseUnary` | src/vm/arith.c:246-299 | The same for unary operators |
| `ArithState.Evaluator.ParseLevel` | src/vm/arith.c:302-622 | The same for every level of the grammar |
| `ArithState.Evaluator.ParseOperators` | src/vm/arith.c:302-554 | The loop of a left-associative level: operator after operator from the left |
| `ArithState.Evaluator.ParseTernary` | src/vm/arith.c:558-596 | The same for the conditional |
| `ArithState.Evaluate` | src/vm/arith.c:624-654 | arith_eval computes the specified value, environment and error, and terminates on every text and environment |
| `ArithLaws.RingLaws` | src/vm/arith.c:302-370 | Sum and product are exact when they fit in 64 bits, and subtraction undoes addition even when they wrap around |
| `ArithLaws.LeftShiftLaws` | src/vm/arith.c:382-388 | Each place of a left shift doubles with wraparound; counts past 63 give 0 in both directions |
| `ArithLaws.RightShiftLaws` | src/vm/arith.c:389-393 | A right shift divides by the power of two and rounds towards minus infinity |
| `ArithLaws.ComparisonLaws` | src/vm/arith.c:397-444 | Exactly one of less, equal and greater holds, and the other comparisons are their negations |
| `ArithLaws.LogicLaws` | src/vm/arith.c:504-554 | The value of a logical operator is 0 or 1 and does not depend on a skipped operand |
| `ArithLaws.AssignShiftLaws` | src/vm/arith.c:219-229 | `<<=` and `>>=` with a count outside 0..63 leave the value, where `<<` and `>>` give 0; all other counts shift alike |
| `ArithLaws.DivisionLaws` | src/vm/arith.c:314-341 | For `/` and `%`: quotient times divisor plus remainder is the dividend modulo 2^64, exactly so but for the smallest number by -1; the remainder is smaller than the divisor and has the sign of the dividend |
| `ArithLaws.BitLaws` | src/vm/arith.c:447-501 | Each of the 64 bits, as the parity of the quotient by a power of two: `&` sets it if both have it, the bar if one has it, `^` if exactly one has it |
| `ArithLaws.CommaLaw` | src/vm/arith.c:598-622 | The comma gives its right operand |
| `ArithLaws.AssignLaws` | src/vm/arith.c:164-229 | A compound assignment computes what its operator does, for every operator and all operands but shift counts outside 0..63 |
| `ArithTexts.TighterFirst` | src/vm/arith.c:302-622 | `a op b op c` for every pair of the nineteen binary operators and any simple operands: the tighter operator takes its operands first, of two alike the left one, and the evaluator gives the value and effects of that grouping |
| `ArithTexts.NumbersGrouped` | src/vm/arith.c:302-622 | The same with numbers for operands, without further conditions |
| `ArithTexts.ConditionLoose` | src/vm/arith.c:558-596 | `a op b ? c : d`: the conditional is looser than every binary operator but the comma |
| `ArithTexts.LastBranchLong` | src/vm/arith.c:558-596 | `a ? b : c op d`: the last branch goes on over every operator but the comma |
| `ArithTexts.SignLaws` | src/vm/arith.c:246-299 | The signs: minus subtracts from 0, `~` flips every bit, `!` asks whether the operand is 0, plus does nothing |
| `ArithTexts.StepLaws` | src/vm/arith.c:135-154 | `++x` is `x += 1`, `--x` is `x -= 1`, and behind the name they do the same and have the value from before |
| `ArithTexts.CompoundLaw` | src/vm/arith.c:164-229 | `x op= e` is `x = x op (e)` where e changes no variable, but for shift counts outside 0..63 |
| `ArithTexts.HexLiteral` | src/vm/arith.c:127-132 | `0x` or `0X` and hexadecimal digits are read to the first other character, with the value of the digits in base 16 cut off at 2^63 - 1 |
| `ArithTexts.OctalLiteral` | src/vm/arith.c:127-132 | Any other literal that starts with 0 is read in base 8 to the first character that is no octal digit |
| `ArithTexts.DecimalLiteral` | src/vm/arith.c:127-132 | A literal that starts with 1 to 9 is read in base 10 |
| `ArithTexts.LiteralIs` | src/vm/arith.c:624-654 | A text that is one literal evaluates to its value and changes nothing |
| `ArithTexts.ShownInDecimal` | src/vm/arith.c:77-85 | What is stored in a variable is the number in decimal digits, a minus sign in front if it is negative, and no zeros to spare |
| `ArithTexts.BlankFront` | src/vm/arith.c:23-28 | Spaces, tabs and newlines in front of an expression make no difference |
| `ArithTexts.NothingIsZero` | src/vm/arith.c:624-654 | The empty text is 0 |
| `ArithTexts.JunkFails` | src/vm/arith.c:641-653 | An expression followed by what is neither an operator nor a closing parenthesis is an error with value 0 |
| `ArithTexts.UnclosedFails` | src/vm/arith.c:113-124 | An opening parenthesis that is not closed is an error with value 0 |
| `ArithTexts.MissingColonFails` | src/vm/arith.c:567-596 | A question mark without its colon is an error with value 0 |
| `ArithTexts.DanglingIsZero` | src/vm/arith.c:239-242 | An operator with nothing behind it takes 0 for its right operand and is no error, but for a division |
| `ArithTexts.ChainLimit` | src/vm/arith.c:45-74 | Up to 32 variables may refer to each other by name in a row and give the number at the end; one more is the depth error |
| `Int64.QuotRem` | src/vm/arith.c:314-341 | Quotient and remainder truncate towards zero and fit together modulo 2^64, also for the smallest number by -1 |
| `Int64.BitwiseAt` | src/vm/arith.c:447-501 | Each bit of bitwise and, or and exclusive or is the operation on the bits of the operands |
| `HashTable.Table.Probe` | src/foundation/hashtable.c:76-91 | Probing ends at the key or at the empty slot where it belongs |
| `HashTable.Table.Get` | src/foundation/hashtable.c:94-110 | ht_get returns the value of the map |
| `HashTable.Table.Put` | src/foundation/hashtable.c:72-92 | Inserting or replacing by probing updates the map at one key and returns the old value |
| `HashTable.Table.Resize` | src/foundation/hashtable.c:39-59 | Doubling keeps the map |
| `HashTable.Table.Set` | src/foundation/hashtable.c:61-92 | ht_set is map update, keeps the table at most three quarters full and returns the old value |
| `HashTable.Table.Remove` | src/foundation/hashtable.c:117-167 | ht_remove is map removal, with backward shifting across the end of the array |
| `HashTable.Table.Foreach` | src/foundation/hashtable.c:169-181 | Every entry is visited once, until the callback asks to stop |
| `HashTable.ProbeMiss` | src/foundation/hashtable.c:94-110 | A probe that ends at an empty slot has shown the key absent, because no probe path has a gap |
| `HashTable.AddAt` | src/foundation/hashtable.c:76-83 | An entry put into the empty slot at the end of its probe path keeps all paths without gaps |
| `HashTable.ShouldShiftIs` | src/foundation/hashtable.c:142-153 | The test with and without wraparound decides exactly whether the hole lies on the entry's probe path |
| `HashTable.MoveEntry` | src/foundation/hashtable.c:154-157 | Moving an entry into the hole keeps the map and leaves no gap but the new hole |
| `HashTable.KeepEntry` | src/foundation/hashtable.c:137-158 | An entry that does not need the hole is passed over |
| `HashTable.EndShift` | src/foundation/hashtable.c:137-164 | When the scan meets an empty slot, the hole is on nobody's path |
| `HashTable.EmptySlot` | src/foundation/hashtable.c:68-70 | A table with fewer entries than slots has an empty slot, so every probe ends |
| `HashTable.SlotByMask` | src/foundation/hashtable.c:73-74 | For every capacity the table can have, hash & (capacity - 1) is the home slot |
| `ImageFile.RoundTrip` | src/vm/image_io.c:191-380 | A written image with distinct constants within the limits, followed by anything, is read back as it was, and what follows is left unread |
| `ImageFile.PrefixRejected` | src/vm/image_io.c:373-377 | A written image cut short anywhere is refused |
| `ImageFile.DecodeMore` | src/vm/image_io.c:191-380 | Whatever bytes decode to an image still do, to the same one, with more bytes behind them |
| `ImageFile.EncodeInjective` | src/vm/image_io.c:113-189 | Different images are written differently |
| `ImageFile.ConstsRead` | src/vm/image_io.c:244-270 | Distinct constants come back at the same indices |
| `ImageFile.TableRead` | src/vm/image_io.c:288-359 | A function or module table comes back with the same names and offsets |
| `ImageFile.UnknownSkipped` | src/vm/image_io.c:361-369 | A section of a type other than the four is passed over wherever it stands, with the same result as without it |
| `ImageFile.MisplacedRefused` | src/vm/image_io.c:243-345 | A second section of a known type and a table in front of the constants are refused, whatever they hold |
| `ImageFile.TooLongRefused` | src/vm/image_io.c:236-240 | A section that declares more than 64 MB is refused, whether or not the bytes follow |
| `ImageFile.CutAt` | src/vm/image_io.c:246-263 | A constant with a NUL in it is read up to the first one |
| `ImageFile.ConstsDistinct` | src/vm/image_io.c:244-270 | Whatever the section holds, the constants read are distinct and without NUL |
| `ImageFile.NamesFromPool` | src/vm/image_io.c:288-321 | Whatever the table holds, every name read is a constant or empty |
| `ImageFile.SampleBytes` | src/vm/image_io.c:113-189 | The bytes of one small file, with its magic number, version, section types and lengths |
| `ImageStreams.Writer.PoolSize` | src/vm/image_io.c:93-101 | The declared length of the constant pool is the number of bytes that follow |
| `ImageStreams.Writer.WritePool` | src/vm/image_io.c:130-141 | The constant pool section |
| `ImageStreams.Writer.FindConst` | src/vm/image_io.c:81-90 | Index of the first equal constant |
| `ImageStreams.Writer.WriteTable` | src/vm/image_io.c:148-186 | A table section with the right declared length, or a failure exactly if a name is not a constant |
| `ImageStreams.Writer.WriteImage` | src/vm/image_io.c:113-189 | image_write_opsb writes the specified bytes and succeeds exactly if all names are constants |
| `ImageStreams.Reader.ReadPool` | src/vm/image_io.c:244-270 | Reads the constants with the sticky error, refusing a string that is too large |
| `ImageStreams.Reader.ReadEntries` | src/vm/image_io.c:299-321 | Reads a table with the sticky error |
| `ImageStreams.Reader.ReadOne` | src/vm/image_io.c:243-370 | One section by its type, refusing duplicates and tables before the pool, skipping unknown types |
| `ImageStreams.Reader.ReadImage` | src/vm/image_io.c:191-380 | image_read_opsb succeeds exactly if the bytes decode, with the decoded image |
| `ImageStreams.WriteAndRead` | src/vm/image_io.c:113-380 | Writing an image and reading the bytes back gives the same image, whatever follows it in the file |
| `SavedPrograms.CompileAndWrite` | src/vm/image_io.c:143-165 | The image of a compiled program can be written exactly if the name of each of its functions is one of its constants; and what is written, followed by anything, is read back to the machine of that program |
| `SavedPrograms.SavedRuns` | src/vm/image_io.c:191-380 | The machine set up from the file stops in a state exactly if the meaning of the program is that state |
| `Redirections.StepUndone` | src/vm/vm.c:2594-2754 | One redirection in a frame with room is undone by its entry exactly if: for OPEN it failed or its descriptor was open, for DUP its descriptor was open or its source was not, for HERE it failed or its descriptor was open or not the lowest free one, for CLOSE always |
| `Redirections.RedirectionsUndone` | src/vm/vm.c:2574-2592 | Every list of at most 16 redirections, each undoable when its turn comes, is undone by REDIR_RESTORE, also when a saved copy was given a number that a later one overwrites |
| `Redirections.OpenDoes` | src/vm/vm.c:2594-2651 | After OPEN the descriptor is the file, every other open one is what it was, and only a noted copy is new; a failed one changes nothing |
| `Redirections.DupDoes` | src/vm/vm.c:2653-2678 | After DUP the descriptor is what its target was, and with a closed target what it was itself; the others as above |
| `Redirections.CloseDoes` | src/vm/vm.c:2680-2696 | After CLOSE the descriptor is free; the others as above |
| `Redirections.HereDoes` | src/vm/vm.c:2698-2754 | After HERE the descriptor is the file, or free if it was the lowest free one; the others as above |
| `Redirections.ListDoes` | src/compiler/compiler.c:461-506 | Over a whole list of any length the command gets exactly the descriptors the list means and besides them only the copies noted in its frame, provided no redirection takes a copy for a descriptor of the command |
| `Redirections.KnownIsStraight` | src/vm/vm.c:2653-2678 | That is so, whatever copies are made, if every DUP has a target that is open before or opened in the list and every HERE is for an open descriptor |
| `Redirections.OutAndErr` | src/vm/vm.c:2594-2678 | `> out 2>&1` ends with both descriptors the file, `2>&1 > out` with the second one what the first was |
| `Redirections.NoRoomNoCopy` | src/vm/vm.c:2632-2643 | The frame has room for 16 copies: what one more OPEN replaces is not brought back |
| `Undoing.UndoCmd` | src/compiler/compiler.c:1450-1513 | For every command, with loops, conditions, calls and nested redirections, of a script free of return, bare exec and jumps out of redirected commands: wherever the run goes on, the descriptor table and the saved frames are those from before, if each list has at most 16 redirections and each of them is undoable when its turn comes, whichever files can be opened |
| `Undoing.OpenTargetsOk` | src/vm/vm.c:2594-2678 | Redirections of descriptors that are open when their turn comes are always of this sort |
| `Undoing.HereOkExactlyIf` | src/vm/vm.c:2698-2754 | A here-document is of this sort exactly if its descriptor is open or not the lowest free one |
| `Undoing.OpenFrame` | src/compiler/compiler.c:461-506 | The redirections of one command, as the machine opens them, are undone by REDIR_RESTORE in any later world with the same table |
| `StaticScripts.TablesRun` | src/vm/vm.c:2562-2754 | The same for runs of the bytes of a whole program on the machine |
| `Redirections.Descriptors.RedirSave` | src/vm/vm.c:2562-2572 | Opens a frame, or fails when 64 are open |
| `Redirections.Descriptors.SaveFd` | src/vm/vm.c:2632-2643 | Saves a descriptor at the lowest free number if the frame has room |
| `Redirections.Descriptors.RedirOpen` | src/vm/vm.c:2594-2651 | OPEN on the descriptor table: on success the descriptor is the file |
| `Redirections.Descriptors.RedirDup` | src/vm/vm.c:2653-2678 | DUP on the descriptor table: the descriptor is what its open target was |
| `Redirections.Descriptors.RedirClose` | src/vm/vm.c:2680-2696 | CLOSE on the descriptor table: the descriptor is free |
| `Redirections.Descriptors.RedirHere` | src/vm/vm.c:2698-2754 | HERE on the descriptor table: on success the descriptor is the file, or free if it was the lowest free one |
| `Redirections.Descriptors.RedirRestore` | src/vm/vm.c:2574-2592 | Undoes the entries of the innermost frame from the last to the first |
| `Sessions.ProtocolSafe` | src/serve/serve.c:343-479 | In every interleaving of short writes and reads, polls, timeouts and child death: the i-th answer is the low byte of the status of the i-th command run, and an open session between operations has both pipes empty and an idle or dead child |
| `Sessions.IdleMeansAnswered` | src/serve/serve.c:446-464 | The parent is idle again only with one more answer, that of the command it sent; every other end of an exchange closes the session |
| `Sessions.ClosedStays` | src/serve/serve.c:67-91 | A closed session gives no more answers |
| `Sessions.AlwaysAnswerable` | src/serve/child.c:64-105 | As long as neither side fails or gives up, in every schedule of reads, writes and polls of any sizes, an exchange under way can still be brought to an answer to its command, in at most as many steps as its work left |
| `Sessions.StepWorks` | src/serve/serve.c:343-479 | Every such event changes nothing, or lessens the work left, or is the answer to the command that was sent |
| `Sessions.ReadKeeps` | src/serve/child.c:20-36 | However the header and the body arrive in pieces, the child assembles exactly the command that was sent |
| `Sessions.LongNeverRuns` | src/serve/child.c:70-77 | Whatever arrives and in which pieces, a command of more than 2^20 bytes is never run |
| `SessionTable.Server.FindSession` | src/serve/serve.c:45-54 | The active slot with that id, if any |
| `SessionTable.Server.AllocSession` | src/serve/serve.c:56-65 | The first inactive slot, if any |
| `SessionTable.Server.Create` | src/serve/serve.c:224-320 | A free slot gets a fresh session under an id never used before, or nothing changes |
| `SessionTable.Server.Eval` | src/serve/serve.c:343-479 | Not found, or failed and the slot is free again, or the low byte of the status of this command; the other slots are untouched |
| `SessionTable.Server.DestroySession` | src/serve/serve.c:503-514 | The slot is free and the id is gone |
| `Jobs.TableKept` | src/exec/job.c:39-135 | Over every sequence of adds, removes, reaps and events ids are unique and ascending, and current and previous are 0 or distinct live ids |
| `Jobs.CurrentExists` | src/exec/job.c:324-334 | job_current is NULL exactly when the table is empty, and else the job current refers to, or the one added last if it refers to none |
| `Jobs.DoneExactlyWhenAllEnded` | src/exec/job.c:141-152 | In whatever order the members exit, stop and continue, a job is DONE exactly when all have ended, with the status of its last member |
| `Jobs.TableTracksEvents` | src/exec/job.c:39-266 | Over every run from the empty table in which no event is taken to be of a member that has ended: every job still in the table is DONE exactly if the run reported the end of each of its members, with the status of the last one's end; and before that STOPPED exactly if the last stop or continuation reported of it was a stop, with status 128 plus its signal |
| `Jobs.StoppedExactlyIf` | src/exec/job.c:194-203 | As long as a member has not ended the job is STOPPED exactly if the last event that stopped or continued a member was a stop, with status 128 plus that signal, and RUNNING otherwise |
| `Jobs.WaitEnds` | src/exec/job.c:208-266 | Waiting goes on exactly as long as no report has stopped a member and some member has not ended |
| `Jobs.AddMarks` | src/exec/job.c:39-65 | A new job is the current one and the old current one is the previous one; there is room for 64 jobs |
| `Jobs.RemoveMarks` | src/exec/job.c:100-122 | When the current job goes, the previous one is current and there is no previous one; when another goes, current and previous stay unless it was the previous one |
| `Jobs.AddThenRemove` | src/exec/job.c:39-122 | An add and the removal of the new job give the old table and current job back, but forget the previous one |
| `Jobs.MoveIsNews` | src/exec/job.c:194-203 | A job that is reported stopped or continued has still to be told to the user, even if it was told before, and no other job changes |
| `Jobs.JobsStayOk` | src/exec/job.c:154-266 | In every such run, from any consistent table, every job is DONE exactly if its record has all its members ended, with the status recorded of the last one |
| `Jobs.ReapRemoves` | src/exec/job.c:124-135 | Reaping removes exactly the jobs that are done and reported |
| `Jobs.ReachesExactlyIf` | src/exec/job.c:78-89 | An event is taken to be of the member it is of exactly if no earlier job and no earlier member has that process number; whether those have ended plays no part |
| `Jobs.JobTable.AddJob` | src/exec/job.c:39-65 | A job with a fresh id becomes the current one; a full table is unchanged |
| `Jobs.JobTable.RemoveJob` | src/exec/job.c:100-122 | The job is taken out, current falls back to previous |
| `Jobs.JobTable.ShiftDown` | src/exec/job.c:113-117 | The jobs behind the removed one move down by one |
| `Jobs.JobTable.ReapDone` | src/exec/job.c:124-135 | Removes the reported jobs one by one |
| `Jobs.JobTable.Update` | src/exec/job.c:154-206 | One report of waitpid changes the job of that process and no other |
| `Jobs.JobTable.WaitFg` | src/exec/job.c:208-266 | Takes in reports up to the first one that stops a member or ends the last one, and returns 128 plus the signal or the status of the last member; 127 for an unknown id |
| `Jobs.JobTable.CurrentJob` | src/exec/job.c:324-334 | job_current |
| `FieldSplit.SplitFields` | src/vm/vm.c:1019-1092 | SPLIT_FIELDS computes the fields and pushes their number |
| `FieldSplit.SplitWeaves` | src/vm/vm.c:1045-1090 | For every string and nonempty IFS the string is leading IFS blanks and then the fields with gaps of IFS characters between them; no field holds an IFS character |
| `FieldSplit.SplitDeletes` | src/vm/vm.c:1045-1090 | The fields one after the other are the string without its IFS characters |
| `FieldSplit.BlanksGiveNoEmptyField` | src/vm/vm.c:1049-1052 | With blanks only in IFS no field is empty |
| `FieldSplit.SeparatorRoundTrip` | src/vm/vm.c:1066-1082 | With one IFS character that is not a blank, joining the fields with it gives the string back |
| `FieldSplit.PosixExactlyIf` | src/vm/vm.c:1066-1082 | For every string and nonempty IFS the fields are those of section 2.6.5 of the POSIX Shell Command Language exactly if no IFS blank stands between an ordinary character and another IFS character and the string, blanks aside, does not end in such a character; otherwise there are more of them |
| `FieldSplit.BlanksAgree` | src/vm/vm.c:1049-1078 | With blanks only in IFS they are always those of POSIX |
| `FieldSplit.EmptyIfs` | src/vm/vm.c:1031-1036 | An empty IFS leaves every string, also the empty one, in one field |
| `FieldSplit.UsualIfs` | src/vm/vm.c:1024-1028 | With space, tab and newline in IFS the fields are the maximal runs of other characters |

## Left out

- Pipelines, subshells, background jobs, command substitution, module imports and arrays: a program with `lib::import` is treated as one whose module does not resolve, and the others have no place in the tree.
- The lexer, the parser and the formatter: the model starts from the tree.
- Globbing, tilde expansion, tests and pattern matching are functions of the host; here-document bodies are words.
- `set -u`, `set -x`, the event sink and signal traps: they add nothing to control flow in the modelled opcodes.
- The operand stack is a sequence without the limit of 1024 values, except that an iterator of more than 1024 items stops the machine as in the source; vm_push beyond the limit is not modelled.
- INIT_ITER is modelled for the one group of values that the compiler emits.
- After an error the source goes on compiling and discards the image; the model stops at the first error. While-loops nested 65 deep are refused by the model, where the source goes on with a loop stack it did not push.
- Words of 65536 or more units and pools of more than 65535 constants are outside the image format; the meaning is stated for programs within it.
- Duplicate function names and functions defined by eval, which share tables between machines.
- Scopes.Environ.AssignVar: scopes are a sequence of maps, where the source links hash tables; aliasing between a scope and its parent is not captured.
- Arith.Store: values of variables are immutable strings; that an assignment inside a variable's own value frees the text being read is not captured.
- ArithCorrect.EvaluatesTree: signed overflow in `++`, `--` and `op=`, undefined in C, is modelled as wraparound, and right shifts as arithmetic shifts; which error is reported is stated only where the lemma names it.
- ArithTrees.Print: spaces between tokens and assignments in parentheses; other spellings of the same tree are not covered.
- HashTable.Table.Get: values are never NULL, so that absence is told apart from a stored null pointer; overflow of the capacity is not modelled.
- ImageFile.RoundTrip: function and module counts below 65536, sections of at most 64 MB and strings of at most 16 MB without NUL, as the format needs; write errors of the stream are not modelled.
- Redirections.StepUndone: running out of descriptors is not modelled.
- Sessions.ProtocolSafe: commands shorter than 2^32 bytes, since a longer one is cut by its four-byte length; output buffers and their limit, JSON-RPC and the creation of processes are left out, and a child is killed at once when its session is closed.
- Jobs.DoneExactlyWhenAllEnded: members have no events after their end, as wait reports guarantee; forwarding of signals while waiting is left out, and so are job specifications by command text.
- Words.PushWord: words are literals, plain variables and special parameters; parameter expansion operators, arithmetic, arrays and command substitution inside words have no place in the tree, so their code is not modelled.
- Words.RunAssigns: array assignments are not modelled.
- Compiler.Compiler.CompileWord: only the three kinds of units above.
- Compiler.Compiler.CompileCommand: array assignments are not modelled.
- Compiler.Compiler.CompileCmd: subshells, background jobs and pipelines of several commands have no place in the tree.
- Loop jumps out of a function body that is defined inside a loop: they are compiled and stay on instruction boundaries (`JumpTargets.CmdSeg`), but what they do to open calls is not part of the meaning.
- Undoing.UndoCmd: lists with a redirection that some run cannot undo are excluded (`Redirections.StepUndone` says which those are); functions rely on one set of tables for every call.
- Jobs.TableTracksEvents: a run in which a reused process number is taken for a member that has ended is excluded; `Jobs.ReachesExactlyIf` says when an event goes to the right member.
- Vm.Step: OP_POP_SCOPE in the global scope stops the machine in the source, and this model leaves it to the host. In compiled programs the case does not arise: every OP_POP_SCOPE follows its OP_PUSH_SCOPE, and by `Frames.FrameProgram` and `Frames.CallKeepsScopesIf` what runs between them ends in no outer scope.
- SavedPrograms.CompileAndWrite: programs without modules, whose strings have bytes other than NUL.
- The disassembler, lint, LSP, MCP, JSON and the printing builtins: members without hard properties.
