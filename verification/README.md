# A verified model of the Tiger compiler's passes

The compiler turns Tiger programs into LLVM code through passes that each rewrite or annotate the
tree: binding, renaming, type checking, desugaring, inlining, escape analysis, lambda lifting and
code generation.  This project models those passes, the object desugarer, the task scheduler and the
nested timer, and proves what each of them is for.

One core language (`Tiger`) has a big-step meaning with fuel: integers of 32 bits, variables in cells
of storage, assignment, sequences, `if`, `while`, `for`, `break`, `let`, nested mutually recursive
functions and primitives.  Outcomes tell a value, a `break`, an undefined division, a stuck program
and running out of fuel apart; every statement about a pass is about all of them.  `Primitives` says
what this meaning makes of primitive calls, of the order of evaluation and of `for`.  Passes that are
expressions over trees are functions; the visitors, which write annotations, tables and code in
place, are classes whose methods are proved against those functions.

## Main results

- Code generation (`Translate`, `Follow`, `Codegen`; its integers: `Int32`, `Arithmetic`): the blocks
  generated for a program halt, trap or run for ever exactly as the program does, on every input, and
  never meet malformed code.
  `Compiler` and `Collected` put renaming, desugaring, escape analysis and lambda lifting in front of
  it.  `Initials`, `ValueFirst` and `CrashingPrograms` say exactly when the two things this relies on
  fail: the order in which C++ evaluates the arguments of one call, and the closedness of the
  collected map.
- Desugaring (`Desugar`, `StringDesugar`): `for` loops keep their meaning with the same fuel, `INT_MAX`
  included; comparisons of strings keep theirs, `<>` excepted, and it is shown when that one is right.
- Renaming and binding (`Rename`, `Numbering`, `Rebind`, `Binder`, `Scoping`, `Redefinition`, `TypeNames`):
  renaming keeps meaning and bindings and numbers declarations in the order of the visit; one scoped map
  of tuples is three symbol tables; undeclared names and stray breaks are told exactly, and redefinitions
  exactly where a chunk repeats a name or a declaration meets the index of a loop.
- Inlining (`CallGraph`, `Recursion`, `Inliner`, `Inline`, `InlineProgram`, `InlineMissed`): which functions
  are taken for recursive is told from the text; expansion exists exactly when no call comes to a cycle of
  the other functions, keeps the meaning of renamed programs, and leaves calls to recursive functions and
  primitives only; `InlinedAccepted` puts it in front of the compiler.
- Escapes and lifting (`Escapes`, `Collector`, `Lifting`, `Collected`): escape marks are exact; the
  collector ends, and for programs of flat functions the text tells whether its map is the least
  closed one.
- Types (`TypeTable`, `TypeCheck`, `TypeVisitor`, `TypeRules`, `TypeSoundness`, `TypeChecked`): programs of
  integers, strings, records, arrays and type names that are not complained about never go wrong, and
  nothing is complained about that the typing rules accept.
- Objects (`Objects`, `Dispatch`): casts between variants, and dispatch functions against method lookup:
  which method is called, and with what object.
- `Tasks` and `Timer`: orders of tasks; conservation of time, and the first and last reading of a task.

## Where the code says something else than its documents

The model follows the code.

- The comment on the `for` template (src/desugar/desugar-visitor.cc:98-131) guards the loop with
  `i <= _hi`; the template built compares `_lo` with `_hi`.
- The test of string comparison (src/desugar/test-string-cmp-desugar.cc:49-51) expects `<>` to become a
  call of `streq`; no case of the visitor handles it (`StringDesugar.NotEqualKept`).
- The loop over a function chunk is meant to collect the variables of all callees
  (src/llvmtranslate/escapes-collector.cc:33-47); recording a variable used directly does not set
  `did_modify_`, so a callee declared after its caller can be missed (`CrashingPrograms.LaterCalleeCrashes`).
- The call graph is meant to link every caller to its callees; the visitor of a call does not enter its
  arguments (`InlineMissed.ArgumentCallMissed`).
- A function outside all others has no parent; linked to a null pointer it gets the first vertex of the
  graph for one (src/callgraph/fundec-graph.hxx:17-23), so the first primitive counts as recursive if it is
  called (`Recursion.RecursiveExactly`).
- A redefinition is meant to be one within a chunk; the index of a `for` is declared outside any chunk
  and shares the stamp of what follows (`Redefinition.ForIndexRedefined`).
- `Named::sound` is meant to tell recursive type names; on names that lead into a cycle without
  being part of it, it does not return (`TypeTable.EndlessNames`).

## Model

| member | source | states |
|---|---|---|
| Int32.WrapCongruent | src/llvmtranslate/translator.cc:353-365 | the result of an operation is the one 32-bit integer congruent to it modulo 2^32 |
| Arithmetic.DivExact | src/llvmtranslate/translator.cc:363-365 | a quotient is the one integer within one divisor of the exact one whose remainder has the sign of the dividend; it is undefined for the divisor 0 and for the one quotient that does not fit |
| Arithmetic.ArithExact | src/llvmtranslate/translator.cc:353-362 | a sum, difference or product is the one 32-bit integer congruent to that of the integers |
| Arithmetic.CompareExact | src/llvmtranslate/translator.cc:366-384 | the six comparisons are those of the integers, by the sign of a difference that may not fit |
| Evaluation.ReadOnlyKept | src/type/type-checker.cc:272-294 | the read-only flag of a `for` index holds at run time: running checked code, callees included, leaves the index's cell as it was |
| Evaluation.TypedOutcome | src/type/type-checker.cc:381-389 | checked code breaks only out of a loop around it and yields nothing where its type is void |
| Evaluation.TypedCallee | src/type/type-checker.cc:411-428 | every function in scope is found with the signature it was declared with and a body of its result type |
| Primitives.CallSeen | src/llvmtranslate/translator.cc:635-672 | a primitive call is seen by its name and its arguments, after those seen before, and touches no variable |
| Primitives.AnswersInOrder | src/llvmtranslate/translator.cc:663-672 | the results of primitives that return integers are the integers of the input, one by one and in order; those that return nothing read none |
| Primitives.LeftToRight | src/llvmtranslate/translator.cc:344-350 | operands are evaluated from left to right, arguments too, and before the call |
| Primitives.ForIndices | src/desugar/desugar-visitor.cc:98-131 | a `for` runs its body with each integer from the lower to the upper bound, both included, in order |
| Cfg.RunDeterministic | src/llvmtranslate/translator.cc:344-507 | the block machine: two runs from one configuration that stop, stop in the same place |
| Simulate.StepEmit | src/llvmtranslate/translator.cc:344-389 | an instruction appended at the insertion point is the next one run there, as long as no terminator stands before it |
| Simulate.LocalsSurvive | src/llvmtranslate/translator.cc:599-614 | code generated later never moves the pointer a visible variable has in `locals_` |
| Layout.CompileGrows | src/llvmtranslate/translator.cc:344-507 | generating code only appends: no block loses code, no register is used twice, no local forgotten, and the builder ends at a block with room |
| Layout.IfGrows | src/llvmtranslate/translator.cc:416-461 | the blocks of an `if`: three new ones, each clause entered empty, both ending in the merge block from different blocks |
| Layout.IfExtends | src/llvmtranslate/translator.cc:416-461 | code that contains an `if` contains its test, both clauses and its merge |
| Layout.WhileGrows | src/llvmtranslate/translator.cc:463-497 | the blocks of a `while`: test, body and after, the loop's own exit in force in the body only |
| Layout.WhileExtends | src/llvmtranslate/translator.cc:463-497 | code that contains a `while` contains its test, its body and what comes after |
| Link.TypesAgree | src/llvmtranslate/translator.cc:663-671 | the type the translator reads off a node is the one the checker gave it |
| Link.CompileKeepsLocals | src/llvmtranslate/translator.cc:674-691 | code that declares no name of a set leaves the pointers of those names alone |
| Link.LookupVarFound | src/llvmtranslate/translator.cc:243-257 | on a closed program the variable read is in `locals_` of the current function, or among its lifted parameters |
| Link.LookupFunFound | src/llvmtranslate/translator.cc:635-646 | a call finds the module's function, with the environment its declaration had |
| Link.CalleeLocsBelow | src/llvmtranslate/translator.cc:635-672 | a callee's cells exist when it is called |
| Follow.Follow | src/llvmtranslate/translator.cc:344-691 | the code of any expression takes the machine from its first instruction to wherever the big-step meaning says: a value in the operand left in `value_`, the exit of the loop for `break`, a trap, or on for as long as the meaning goes |
| Follow.FollowOper | src/llvmtranslate/translator.cc:344-389 | the instructions of one operator compute its value, zero-extended for comparisons, and trap on an undefined division |
| Follow.FollowStore | src/llvmtranslate/translator.cc:406-414 | an assignment's store changes the cell its variable names and no other |
| Follow.FollowBranch | src/llvmtranslate/translator.cc:416-461 | from the end of a test: the machine takes the clause the value picks and reaches the merge block |
| Follow.FollowJoin | src/llvmtranslate/translator.cc:416-461 | the phi names the block control arrives from, also when the clause opened more blocks, and yields that clause's value |
| Follow.FollowTurn | src/llvmtranslate/translator.cc:463-497 | one turn of a loop after its test: into the body with `break` meaning the block after the loop, or past the loop |
| Follow.FollowBack | src/llvmtranslate/translator.cc:463-507 | from the end of a loop body: back to the test, or out of the loop if it broke, through any number of nested `if`s |
| Follow.FollowAgain | src/llvmtranslate/translator.cc:490-497 | jumping back finds the test block with every local in place |
| Follow.FollowScope | src/llvmtranslate/translator.cc:674-691 | a declared variable's cell holds its initial value while its scope runs |
| Follow.CallArgsOk | src/llvmtranslate/translator.cc:653-661 | the pointers handed over at a call are, in order, the cells that the callee's scope gives its lifted variables |
| Follow.LiftedLocated | src/llvmtranslate/translator.cc:597-603 | a function finds each lifted variable in the parameter at its place in the order |
| Follow.FollowFormals | src/llvmtranslate/translator.cc:605-614 | after the entry code each formal has a cell of its own holding the argument that follows the lifted ones |
| Follow.FollowCallee | src/llvmtranslate/translator.cc:635-672 | a call runs the callee's code and comes back with its value, or makes the primitive's call |
| Codegen.ProgramLinked | src/llvmtranslate/translator.cc:529-574 | functions visited header by header and body by body are all found in the module under their names |
| Codegen.CodegenCorrect | src/llvmtranslate/translator.cc:344-691 | for every program, input and amount of running: the machine halts in a state iff the program ends in it, traps iff the program does, runs for ever iff it does, and never meets malformed code; with the pointer of an initial store evaluated first, or on inputs on which no initial value is completed |
| Crashes.ValueFirstCrashes | src/llvmtranslate/translator.cc:674-691 | if `translate` is evaluated first, `value_` is overwritten: wherever it stands, a declaration crashes the machine once its initial value, or that of a variable declared in it, is known |
| Crashes.MissingPointerCrashes | src/llvmtranslate/translator.cc:653-661 | a call made where a variable lifted into the callee has no pointer crashes the machine, whatever the arguments |
| ValueFirst.CompileTwin | src/llvmtranslate/translator.cc:674-691 | the order of evaluation shows in nothing but the store of a `var`: the rest of the code is the same, instruction by instruction |
| ValueFirst.ValueFirstExact | src/llvmtranslate/translator.cc:674-691 | for every program and input: with the value evaluated first the code crashes iff running the program completes the initial value of some variable, and otherwise it behaves step by step as it does with the pointer first |
| ValueFirst.WithoutVariables | src/llvmtranslate/translator.cc:674-691 | a program whose text declares no variable does so on no input: in either order its code is correct and never crashes |
| Initials.WithoutVar | src/llvmtranslate/translator.cc:674-691 | evaluating a text without declarations of variables completes no initial value, in its callees neither |
| CrashingPrograms.FirstVariableCrashes | src/llvmtranslate/translator.cc:674-691 | so every accepted program that starts with a variable given by a literal crashes at its second instruction |
| CrashingPrograms.OneVariableCrashes | src/llvmtranslate/translator.cc:674-691 | an accepted program of that kind |
| CrashingPrograms.LaterCalleeCrashes | src/llvmtranslate/escapes-collector.cc:33-110 | for `var x`, `f() = h()`, `h() = x` the map the analyses compute is not the least closed one, and the code generated with it crashes on every input |
| TranslatorVisitor.Translator.Translate | src/llvmtranslate/translator.cc:90-94 | visiting a tree leaves in the builder and in `value_` what the code function says, adds the functions declared inside, and leaves every other function as it was |
| TranslatorVisitor.Translator.TranslateIf | src/llvmtranslate/translator.cc:416-461 | the whole `if`, phi included |
| TranslatorVisitor.Translator.TranslateWhile | src/llvmtranslate/translator.cc:463-497 | the whole `while`, the outer loop's exit restored |
| TranslatorVisitor.Translator.TranslateCall | src/llvmtranslate/translator.cc:635-672 | pointers, then arguments, then the call; 0 where the result is void |
| TranslatorVisitor.Translator.TranslateLetVar | src/llvmtranslate/translator.cc:674-691 | the cell, the initial value, the store, in the order of evaluation the compiler chose |
| TranslatorVisitor.Translator.TranslateChunk | src/llvmtranslate/translator.cc:529-538 | all headers before all bodies; primitives get none |
| TranslatorVisitor.Translator.TranslateBody | src/llvmtranslate/translator.cc:576-633 | a function's code, after which builder and current function are those from before |
| TranslatorVisitor.Translator.OpenFunction | src/llvmtranslate/translator.cc:578-614 | the entry block with all parameters bound |
| TranslatorVisitor.Translator.TranslateProgram | src/llvmtranslate/translator.cc:529-633 | the module a whole program leaves is exactly the generated code of its functions |
| Desugar.DesugarKeeps | src/desugar/desugar-visitor.cc:133-166 | replacing every `for` keeps the meaning with the same fuel: same value, trace and storage but for cells of `_lo` and `_hi` that nothing else sees |
| Desugar.LoopKeeps | src/desugar/desugar-visitor.cc:146-160 | the `while 1` runs the body for exactly the indices of the `for`, in order; the addition never passes the bound, at INT_MAX either; a `break` of the body leaves it |
| Desugar.TemplateMeaning | src/desugar/desugar-visitor.cc:144-160 | the template evaluates `hi` once and enters its loop exactly when `_lo <= _hi` |
| Hygiene.TypedDesugared | src/desugar/desugar-visitor.cc:133-166 | the desugared tree has the type the tree had, so that checking it again succeeds |
| Hygiene.ForsGone | src/desugar/desugar-visitor.cc:133-166 | no `for` is left |
| Desugar.DesugarVisitor.Visit | src/desugar/desugar-visitor.cc:133-166 | the tree left in `result_` is the desugared tree, or a plain copy with the flag off |
| Desugar.DesugarVisitor.VisitFor | src/desugar/desugar-visitor.cc:133-166 | bound and body are visited before the index's declaration, and the template is built around them |
| StringDesugar.ExpKept | src/desugar/desugar-visitor.cc:25-97 | for every well-typed expression without `<>` between strings, the calls of `streq` and `strcmp` run on addresses give what comparing spellings gives |
| StringDesugar.StringOrderExact | src/llvmtranslate/tiger-runtime.c:157-160 | `strcmp` orders strings as a dictionary does and is 0 on equal ones only |
| StringDesugar.NotEqualKept | src/desugar/desugar-visitor.cc:92-96 | `<>` is left as it is and compares addresses: right iff strings spelled the same are in the same place |
| StringDesugar.NotEqualBroken | src/desugar/desugar-visitor.cc:92-96 | the concrete program for which it is wrong |
| StringDesugar.CheckedDesugars | src/desugar/desugar-visitor.cc:25-97 | type checking, desugaring and running the result never goes wrong and does what the checked program does |
| Rename.FreshInjective | src/bind/renamer.cc:15-33 | `<id>_<count>` tells both the identifier and the count: two declarations never get one name |
| Numbering.ProgramNumbered | src/bind/renamer.cc:15-76 | the declarations of a program are numbered from 0 in the order they are visited: each is called by its old name, an underscore and the decimal numeral of its number |
| Numbering.ExpNumbered | src/bind/renamer.cc:15-76 | renaming a text counts each of its declarations once: of a chunk first the formals and name of every function, then what the bodies declare |
| Rename.GivenDiffer | src/bind/renamer.cc:48-68 | declarations with different names keep different names, primitives and `_main` included, as long as no kept name is spelled like a fresh one |
| Rename.ResolvedVar | src/bind/renamer.cc:141-146 | a renamed variable use still finds its declaration's cell |
| Rename.ResolvedFun | src/bind/renamer.cc:148-159 | a renamed call still finds its declaration, with the renamed body and scope |
| Rename.RenameKeeps | src/bind/renamer.cc:15-159 | renaming keeps the meaning to the letter: value, cells, trace and fuel |
| Hygiene.TypedRenamed | src/bind/renamer.cc:15-159 | the renamed tree has the type the tree had |
| Hygiene.UniqueRenamed | src/bind/renamer.cc:15-33 | after renaming no variable is declared twice on a path through the tree |
| Hygiene.NumberedRenamed | src/bind/renamer.cc:48-76 | after renaming every function has a name of its own, made from a count used once |
| Hygiene.CleanRenamed | src/bind/renamer.cc:15-33 | a renamed program has no variable called `_lo` or `_hi` |
| Rename.Renamer.VisitExp | src/bind/renamer.cc:15-159 | uses copy the name their definition has been given, in the order the definitions are visited |
| Rename.Renamer.VisitHeaders | src/bind/renamer.cc:48-68 | first pass: formals, then the function's own name unless primitive or `_main` |
| Rename.Renamer.VisitBodies | src/bind/renamer.cc:70-76 | second pass: bodies under the names the first pass left |
| Rebind.RebindsAlike | src/bind/binder.cc:104-367 | alpha-equivalence: binding the renamed tree finds no error where binding the tree found none, and binds every use and every `break` to the same declaration node |
| Rebind.ProgramRebinds | src/bind/renamer.cc:48-68 | the same for whole programs with their prelude of primitives, none spelled like a fresh name |
| Pipeline.DesugarProgramKeeps | src/desugar/desugar-visitor.cc:133-166 | a program's primitive calls and end are those of the desugared program |
| Pipeline.RenameProgramKeeps | src/bind/renamer.cc:15-159 | the renamed program does exactly what the program does, from `_main` on |
| Pipeline.RenameAccepted | src/bind/renamer.cc:15-159 | a renamed program is still well bound and typed, with one declaration a name |
| Pipeline.PipelineCorrect | src/llvmtranslate/translator.cc:344-691 | rename, desugar, bind, generate: for every input the generated code makes the program's primitive calls and ends as it does, given closed lifted parameters |
| Compiler.RenamedWellBound | src/escapes/escapes-visitor.cc:14-36 | in a renamed program every variable is declared once, and before its uses in the order of the visit |
| Compiler.LeastMapCloses | src/llvmtranslate/escapes-collector.cc:33-110 | lifting the least closed map gives every function the pointers it needs |
| Compiler.CompilerCorrect | src/llvmtranslate/translator.cc:199-241 | the whole compiler on every accepted program and input, with lifted variables in any order: halts, traps and runs for ever exactly as the program, never crashes |
| Collected.CollectedCorrect | src/llvmtranslate/escapes-collector.cc:33-110 | the whole compiler with the map its own collector computes, whenever that map is closed |
| Collected.Collect | src/llvmtranslate/escapes-collector.cc:33-110 | escape analysis and collection of a whole program: the map is the least closed one iff it is closed; where functions hold no functions and do not call `_main`, iff some call comes after a use it has to hand on or no call hands anything on |
| Escapes.MarksExact | src/escapes/escapes-visitor.cc:14-36 | a variable ends marked escaped iff some use lies in a function other than the declaring one, and its site is that function |
| Escapes.EscapesVisitor.VisitExp | src/escapes/escapes-visitor.cc:14-36 | the marks after a tree are those of its visits in order, the current function restored |
| Collector.CallAddsIsEarlyCall | src/llvmtranslate/escapes-collector.cc:59-96 | a pass sets `did_modify_` iff some call comes after enough of its callee's variables were recorded |
| Collector.QuietPassCloses | src/llvmtranslate/escapes-collector.cc:40-44 | a pass without news that started with all direct uses recorded leaves a closed map |
| Collector.LeastIffClosed | src/llvmtranslate/escapes-collector.cc:33-110 | what traversals leave is the least closed map above what they started from iff it is closed |
| Collector.DirectEndsClosed | src/llvmtranslate/escapes-collector.cc:33-47 | started with all direct uses recorded, the loop over a flat chunk always ends in a closed map |
| Collector.LeastNeedsIsLeast | src/llvmtranslate/escapes-collector.cc:33-110 | there is a least map with all direct uses that is closed under calls |
| Collector.LeastAboveIsLeast | src/llvmtranslate/escapes-collector.cc:33-110 | above every map there is a least one that is closed under calls and has all direct uses |
| Collector.LaterCalleeMissed | src/llvmtranslate/escapes-collector.cc:98-110 | the order of declarations decides: with the callee first the loop ends closed, with the caller first it does not |
| Collector.EscapesCollector.PropagateFrom | src/llvmtranslate/escapes-collector.cc:64-95 | a call records for the caller what the callee needs and the caller does not declare, and reports news |
| Collector.EscapesCollector.VisitExp | src/llvmtranslate/escapes-collector.cc:33-110 | one pass over a tree adds exactly what its visits hand on; nothing is recorded that is not read in a function reached |
| Collector.EscapesCollector.VisitFunctionChunk | src/llvmtranslate/escapes-collector.cc:33-47 | the loop ends, the outer flag is restored; on a chunk without nested chunks the map is the least closed one above the given one iff the order of calls and uses in its text says so |
| Lifting.LiftedClosed | src/llvmtranslate/translator.cc:199-241 | given a closed map, the variables a function uses or passes on are all its own or among its lifted parameters |
| Lifting.EquippedCall | src/llvmtranslate/translator.cc:653-656 | at every call the caller holds each variable the callee is to be passed |
| CallGraph.ClosureIsLeast | src/inlining/inliner.cc:22-26 | the closure is the least transitive relation holding all call edges |
| CallGraph.ComputeRecFuns | src/inlining/inliner.cc:35-52 | the nested loops find exactly the functions reached from a function nested in them; every function on a call cycle is among them |
| Recursion.RecursiveExactly | src/inlining/inliner.cc:26-52 | on the text of a renamed program: a function is found recursive iff in the call graph it is reached from itself or from a function declared, at whatever depth, in its body; and the first primitive, which is the first vertex, if it is called |
| Recursion.Detected | src/inlining/inliner.cc:18-55 | building both graphs and running the constructor finds exactly these |
| Recursion.UpIsOut | src/callgraph/fundec-graph.hxx:33-49 | going up the parent graph comes to functions that contain the start, and at last to the first vertex |
| Recursion.OutIsUp | src/callgraph/fundec-graph.hxx:33-49 | and it comes to each of them |
| Recursion.EdgesAreCalls | src/callgraph/call-graph-visitor.cc:33-37 | an edge is a call standing in the body of its source; every such call is an edge where none stands in the arguments of another |
| CallGraph.CallGraphVisitor.VisitExp | src/callgraph/call-graph-visitor.cc:33-37 | the edges of a tree: a call is linked to the current function, its arguments are not visited |
| CallGraph.ParentGraphVisitor.VisitExp | src/callgraph/parent-graph-visitor.cc:23-40 | every function of the tree is linked to the one it is nested in |
| Inliner.CallsReached | src/callgraph/call-graph-visitor.cc:33-55 | if nested functions are reached by calls and calls stand in no arguments, the closure has every call of a body |
| Inliner.RankFalls | src/inlining/inliner.cc:64-101 | expansion moves down: a function called in an expandable body comes to fewer expandable functions than the one it is called in |
| Inliner.Endless | src/inlining/inliner.cc:64-101 | where every function of a set calls another of it, no call to one of them has an expansion, however deep |
| Inliner.InlinedExactly | src/inlining/inliner.cc:64-101 | an expression has an expansion iff its calls come to no cycle of expandable functions |
| Inliner.TracedAcyclic | src/inlining/inliner.cc:35-52 | where the call graph has every call, leaving alone the functions on its cycles leaves no cycle to expand |
| Inliner.OnlyRecursiveLeft | src/inlining/inliner.cc:64-101 | after expansion every call, at any depth, targets a recursive function or a primitive |
| Inliner.Inliner.constructor | src/inlining/inliner.cc:18-55 | `rec_funs_` as computed from both graphs |
| Inliner.Inliner.InlineExp | src/inlining/inliner.cc:64-101 | where no call comes to a cycle, the visitor ends with an expansion of the tree |
| Inliner.Inliner.InlineCall | src/inlining/inliner.cc:64-101 | recursive and primitive callees are left with their arguments expanded; any other call becomes bindings, `res` and the body |
| Inline.InlineKeeps | src/inlining/inliner.cc:74-98 | expansion keeps the meaning in every hygienic scope: same value and trace, corresponding storage, no capture by formals or `res`, whichever of the two runs has fuel for the other |
| InlineProgram.RenamedHygienic | src/inlining/inliner.cc:74-98 | in a uniquely renamed program no formal of an expanded function is in sight at its calls |
| InlineProgram.InlineCorrect | src/inlining/inliner.cc:18-101 | for every renamed program and whatever set of functions left alone: if expansion ends, the expanded program makes the same primitive calls and ends in the same way, or runs for ever, exactly as the program |
| InlineProgram.ProgramInlines | src/inlining/inliner.cc:18-101 | a renamed program can be expanded iff no call of it comes to a cycle of functions not found recursive |
| InlineProgram.PlainCallsAcyclic | src/inlining/inliner.cc:18-55 | this is so if no call stands in the arguments of another and nested functions are reached by calls from the function around them |
| InlinedAccepted.InlinedTyped | src/inlining/inliner.cc:64-101 | an expanded tree has the type it had, in the wider scope its calls stand in, iff every function expanded in it returns an integer; `res` is a variable of the type of the result |
| InlinedAccepted.ExpandedAccepted | src/inlining/libinlining.cc:22-34 | the check run again after expansion finds a program of the fragment without variables of type void iff every function called and expanded returns an integer |
| InlinedAccepted.AcceptedInlines | src/inlining/inliner.cc:18-101 | an accepted program, renamed, can be expanded iff no call comes to a cycle of functions not found recursive |
| InlinedAccepted.AcceptedAlike | src/inlining/libinlining.cc:22-34 | its expansion ends or runs for ever as the program does as it was written, and is accepted iff the functions expanded return integers |
| InlinedAccepted.InliningCompilerCorrect | src/inlining/libinlining.cc:22-34 | the whole compiler with inlining: the code generated for the expanded program halts, traps or runs for ever exactly as the program does as it was written, on every input, and never crashes |
| InlinedAccepted.InlineAsWritten | src/inlining/inliner.cc:18-101 | renaming, both graphs, recursion detection and expansion of a program as it was written |
| InlineProgram.InlineMain | src/inlining/inliner.cc:18-101 | from graphs to new text: where expansion ends, the visitor makes a program that calls recursive functions and primitives only, and that ends or runs for ever exactly as the given one does on every input |
| InlineMissed.ArgumentCallMissed | src/callgraph/call-graph-visitor.cc:33-37 | an accepted, renamed program whose recursive function stands in an argument: it is not found recursive, and the program has no expansion |
| Binder.TuplesAreTables | src/bind/binder.cc:41-95 | one scoped map of tuples is three symbol tables with innermost-first lookup, over every sequence of scope begin, end and put |
| Binder.PutSees | src/bind/binder.cc:70-95 | a put in one name space changes what that name space alone resolves to |
| Scoping.ComplaintsExact | src/bind/binder.cc:176-367 | the binder complains of nothing but redefinitions iff every variable and function used is declared around its use and every `break` is in a loop |
| Scoping.UnknownCallee | src/bind/binder.cc:261-290 | of a call to a name bound to nothing the arguments are not looked at; of a call to a name bound to a variable they are |
| Scoping.BreaksInner | src/bind/binder.cc:220-354 | a `break` is bound to the innermost loop around it |
| Scoping.FirstFormal | src/bind/binder.cc:176-211 | of formals of one name the first is what the name means in the body, whatever it meant outside |
| Scoping.FirstFunction | src/bind/binder.cc:70-97 | and of functions of one name in a chunk |
| Binder.Binder.Declare | src/bind/binder.cc:176-218 | a declaration is bound unless its name has the current stamp: then it is reported and the first stays |
| Binder.Binder.VisitExp | src/bind/binder.cc:176-367 | visiting a tree reports and binds what scoping by value says, and leaves table and loops as they were |
| Binder.Binder.VisitFor | src/bind/binder.cc:220-229 | the upper bound before the index's declaration |
| Binder.Binder.VisitCall | src/bind/binder.cc:261-284 | arguments are visited unless the name is bound to nothing at all |
| Binder.Binder.VisitLetFuns | src/bind/binder.cc:135-151 | headers, then bodies, then the stamp moves on |
| Redefinition.BinderIsLexical | src/bind/binder.cc:25-218 | where no declaration meets an index so, the global stamp amounts to lexical scoping: nested, earlier and enclosing chunks never collide |
| Redefinition.CollisionsReported | src/bind/binder.cc:176-229 | for every program the binder reports exactly one redefinition more than lexical scoping for each declaration that meets the index of a loop before a chunk is completed |
| Redefinition.LexicalUnlessCollision | src/bind/binder.cc:25-229 | its messages are those of lexical scoping iff there is no such declaration |
| Redefinition.ChunksCounted | src/bind/binder.cc:135-163 | the chunk count moves on iff the text visited has a variable or function chunk |
| Redefinition.NoForNoCollisions | src/bind/binder.cc:220-229 | without `for` there is none |
| Redefinition.RedefinitionExact | src/bind/binder.cc:135-163 | lexical scoping reports a redefinition iff some chunk declares a name twice in one name space |
| Redefinition.BinderReports | src/bind/binder.cc:135-229 | a program whose calls are all bound is told of a redefinition iff a chunk repeats a name or a declaration meets an index |
| Redefinition.ForIndexRedefined | src/bind/binder.cc:220-229 | a variable of the body named like the index is such a declaration |
| Redefinition.InnerIndexRedefined | src/bind/binder.cc:220-229 | so does the index of a loop directly inside |
| Redefinition.FormalRedefined | src/bind/binder.cc:111-125 | so does a formal of a function declared in the loop, but nothing in its body |
| Redefinition.RedefinedUnlessChunk | src/bind/binder.cc:176-218 | of two declarations of a name in a chunk of variables the second is reported iff its initial value has no chunk |
| TypeNames.BinderIsLexical | src/bind/binder.cc:41-68 | on type names the global stamp always amounts to lexical scoping, whatever chunks of variables and functions come between |
| TypeNames.RedefinitionExact | src/bind/binder.cc:41-68 | the redefinition of a type is reported iff some chunk of types declares a name twice |
| TypeNames.TypesRebind | src/bind/renamer.cc:78-139 | alpha-equivalence for types: binding the renamed program again gives every use of a type the declaration it had, and no error; `int` and `string` stay as they are |
| TypeNames.RenamedTypesDiffer | src/bind/renamer.cc:86-95 | after renaming no two types of a program have the same name |
| TypeNames.TypeBinder.VisitTypeChunk | src/bind/binder.cc:135-161 | headers, right-hand sides, then the next stamp; variables and functions in the table stay in sight |
| TypeNames.TypeBinder.Visit | src/bind/binder.cc:135-343 | the visitor binds and reports type names as scoping by value does and restores the table |
| TypeNames.UndeclaredExact | src/bind/binder.cc:315-342 | a type name is told undeclared iff some name other than `int` and `string` is used outside every chunk that declares it |
| TypeNames.ChunkBinds | src/bind/binder.cc:41-68 | in a chunk of types a name means its first declaration there, whatever it meant before |
| TypeTable.ActualStable | src/type/named.hxx:20-24 | types declared later change nothing in what a type resolves to |
| TypeTable.ActualClosed | src/type/named.hxx:20-24 | in a sound table every type resolves to a basic type, a record or an array |
| TypeTable.NamedSound | src/type/named.cc:37-50 | sound iff the name leads to a type; not sound iff it leads back to itself; else the original's loop never ends |
| TypeTable.EndlessNames | src/type/named.cc:37-50 | such a pair of declarations: `type a = b  type b = b` |
| TypeVisitor.TypeChecker.CheckTypes | src/type/type-checker.cc:77-118 | reported iff the two types resolve differently |
| TypeVisitor.TypeChecker.TypeChunk | src/type/type-checker.cc:509-530 | headers, bodies, then the first recursive name is reported and taken for an integer |
| TypeVisitor.TypeChecker.VisitVar | src/type/type-checker.cc:128-172 | type and annotations of a variable |
| TypeVisitor.TypeChecker.Visit | src/type/type-checker.cc:178-389 | types written onto the tree and errors reported, as the checking function says |
| TypeChecked.ChunkSound | src/type/type-checker.cc:479-530 | a type chunk without errors leaves a sound table, old types untouched |
| TypeRules.ChunkMeans | src/type/type-checker.cc:479-597 | the names of a chunk that is not complained about stand for the types their right-hand sides say |
| TypeRules.ChunkExact | src/type/type-checker.cc:479-597 | a chunk is not complained about iff its record types repeat no field and no name leads back to itself |
| TypeRules.BuiltInTypes | src/type/type-checker.cc:536-563 | undeclared, `int` takes integers and refuses strings, and `string` the other way round |
| TypeChecked.ExpFollows | src/type/type-checker.cc:136-389 | a tree nothing is reported about has its type by the typing rules, in every sound extension of the table |
| TypeRules.ExpExact | src/type/type-checker.cc:178-389 | conversely, nothing is reported about a tree iff the typing rules, read as a function of the tree, give it a type: the checker is complete for them |
| TypeRules.VarExact | src/type/type-checker.cc:128-172 | the same for variables |
| TypeRules.FieldFound | src/type/type-checker.cc:147-155 | a field has the position and the type of the first field of its name in the record type, and is told unknown iff the record has none of the name |
| TypeCheck.FieldIndexExact | src/type/record.cc:29-38 | the search finds a position iff the first field of the name is there |
| TypeSoundness.Safe | src/type/type-checker.cc:128-389 | well-typed code in a well-typed state never applies an operation to a value of the wrong kind and leaves store and heap well typed |
| TypeChecked.CheckedIsSafe | src/type/type-checker.cc:77-462 | soundness: a program of ints, strings, arrays, records and type names that is not complained about never goes wrong, however long it runs, and its value has its type |
| Objects.DesugarVisitor.VariantTy | src/object/desugar-visitor.cc:183-200 | the slots: mandatory ones from the class up, then those of the subclasses |
| Objects.DesugarVisitor.VariantExp | src/object/desugar-visitor.cc:117-157 | a field for each slot in the type's order, nil where optional, the first missing mandatory value reported |
| Objects.DesugarVisitor.Cast | src/object/desugar-visitor.cc:215-237 | every slot of the target the source has is copied |
| Objects.CastBuilt | src/object/desugar-visitor.cc:131-142 | no mandatory slot is missing iff each lies on the source's chain or below it; along inheritance always |
| Objects.MissingIsLowest | src/object/desugar-visitor.cc:117-157 | the value reported missing is that of the lowest class that lacks one |
| Objects.CastSlots | src/object/desugar-visitor.cc:215-237 | what a cast leaves in each slot of the target |
| Objects.CastTyped | src/object/desugar-visitor.cc:246-251 | the result is a proper value iff the target's mandatory slots were filled |
| Objects.UpcastTyped | src/object/desugar-visitor.cc:239-244 | an upcast always gives a proper value |
| Objects.RoundTrip | src/object/desugar-visitor.cc:215-251 | downcast after upcast restores every data slot, subclasses' included |
| Objects.UpcastsCompose | src/object/desugar-visitor.cc:239-244 | upcasts compose on data slots; the exact type is that of the last cast only |
| Dispatch.NearestIsLookup | src/object/desugar-visitor.cc:292-295 | the search up the chain finds the method that is inherited |
| Dispatch.NearestStops | src/object/desugar-visitor.cc:292-295 | it stops at or below every super class that owns the method |
| Dispatch.DesugarVisitor.DispatchSwitch | src/object/desugar-visitor.cc:253-326 | the chain of tests for the overriding classes of the chunk, falling back on the earlier version or the class's own method |
| Dispatch.DesugarVisitor.FindNearest | src/object/desugar-visitor.cc:292-295 | the loop up the super classes |
| Dispatch.DesugarVisitor.DispatchFunction | src/object/desugar-visitor.cc:458-538 | versions for every earlier super class that owns the method, once a chunk, then the main function |
| Dispatch.DesugarVisitor.TypeChunk | src/object/desugar-visitor.cc:596-623 | a chunk's own methods get functions; earlier methods get a version iff the chunk redefines them; nothing else changes |
| Dispatch.DesugarVisitor.TypeChunks | src/object/desugar-visitor.cc:253-326 | the chunks of a scope visited in turn leave the tables that `DispatchOverChunks` speaks of |
| Dispatch.DesugarVisitor.LeaveLet | src/object/desugar-visitor.cc:825-836 | the counters are those from before the scope, whatever was added in it |
| Dispatch.DispatchExact | src/object/desugar-visitor.cc:253-326 | running a dispatch function is method lookup iff the exact type is tested in some version or inherits from no class below |
| Dispatch.ChunkDispatch | src/object/desugar-visitor.cc:253-326 | for the class and every subclass of its chunk, dispatch is method lookup |
| Dispatch.DispatchOverChunks | src/object/desugar-visitor.cc:253-538 | over any chunks of classes visited in turn, each after its super classes: dispatch on an object of class `d` is method lookup iff the chunk of `d` declares the method, or redefines it below the static type, or nothing below the static type on the chain of `d` owns it |
| Dispatch.HandedTyped | src/object/desugar-visitor.cc:296-300 | the method called is handed an object of the class that owns it, with the data of the object dispatched on: that object itself if the class is the static type, and otherwise its downcast |
| Dispatch.HandedOverChunks | src/object/desugar-visitor.cc:239-326 | over any chunks visited in turn, for every object of every class used as one of the class that declares the method: the argument has the type of the class called and the slots of the object |
| Dispatch.MissedRedefinition | src/object/desugar-visitor.cc:458-538 | three classes, and the dispatch functions built for them, for which it is not: `D`, in a later chunk, inherits from `B` a method that `B` redefines of `A` |
| Dispatch.EarlierKept | src/object/desugar-visitor.cc:458-538 | a later chunk changes nothing for exact types of earlier ones |
| Dispatch.CastTwice | src/object/desugar-visitor.cc:239-244 | after two upcasts an object calls what the middle class inherits; its own method iff no class below owns it |
| Tasks.TaskRegister.RegisterTask | src/task/task-register.cc:73-96 | a name is registered once; a second time is reported |
| Tasks.TaskRegister.EnableTask | src/task/task-register.cc:99-113 | an unknown name is reported; otherwise dependencies, then the task |
| Tasks.TaskRegister.ResolveDependencies | src/task/task-register.cc:119-149 | exactly what the task asks for given the active alternatives is added, and exactly its unknown dependencies and those of the added tasks are reported |
| Tasks.EnabledGrows | src/task/task-register.cc:119-149 | a request adds missing dependencies only, each once and each needed, then the task |
| Tasks.EnabledOrdered | src/task/task-register.cc:99-149 | requests keep the order valid: every task after what it needs |
| Tasks.RequestsScheduled | src/task/task-register.cc:99-149 | after any sequence of requests on acyclic dependencies: valid, complete, only what some request reaches, each task at most once more than requested |
| Tasks.Complete | src/task/disjunctive-task.cc:23-30 | with all dependencies registered an ordinary task has all of them before it, a disjunctive one at least one |
| Tasks.AlternativeScheduled | src/task/disjunctive-task.cc:23-30 | some alternative precedes a disjunctive task iff its first one is registered or another was scheduled before |
| Tasks.ErrorsExact | src/task/task-register.cc:119-149 | reported is every unregistered dependency of every task a request adds, and nothing else |
| Tasks.DependenciesInTurn | src/task/task-register.cc:119-149 | the dependencies of an ordinary task are scheduled in the order it lists them: at some moment the first `j` are there with what they need and nothing else, and the rest is what the others need |
| Tasks.RequestedAgain | src/task/task-register.cc:99-113 | requesting a scheduled task again adds nothing but the task, a second time |
| Timer.ElapsedIsOnTop | lib/misc/timer.cc:163-191 | a task's elapsed time is the time it was on top of the stack, however often its name is there |
| Timer.Conserved | lib/misc/timer.cc:163-191 | over every run the elapsed times and the time between an event's two clock readings add up to the time the stack was not empty |
| Timer.NoGaps | lib/misc/timer.cc:163-191 | with one reading an event nothing is lost |
| Timer.BusyPeriod | lib/misc/timer.cc:163-191 | a busy period lasts from its first start to its last stop |
| Timer.Bounded | lib/misc/timer.cc:23-48 | with a monotone clock an elapsed time is between zero and last minus first, or minus the current start for the task running |
| Timer.FirstStart | lib/misc/timer.cc:23-36 | the first reading of a task is the start read by the event that first put it on top of the stack |
| Timer.LastStop | lib/misc/timer.cc:38-48 | its last reading is the stop read by the latest event that found it on top |
| Timer.TimeVar.Stop | lib/misc/timer.cc:38-48 | the time since the start is added, on each of the three clocks |
| Timer.Timer.Push | lib/misc/timer.cc:163-178 | stop the old top, start the new, on all clocks at once though variables may be shared |
| Timer.Timer.Pop | lib/misc/timer.cc:180-191 | stop the top, drop it, start the one below |

## Left out

- LLVM itself: types, dominance, verification of modules, linking, the C runtime.  Code is an abstract block graph; a block ends at the first terminator reached, whatever is emitted after it.
- The order of blocks inside a function: blocks are numbered as they are created.
- Storage is never given back: allocations made in a loop add a cell each time.
- Variables of type void, and the value left in `value_` after an `if` or a `while` of type void.
- Strings, records and arrays in code generation; operands of comparisons are integers there.
- The symbols `tc_` gives primitives: primitives have a name space of their own.
- Constant folding by the LLVM builder.
- `break` in a function declared inside a loop: the binder, whose stack of loops is not reset at functions, binds it to the loop, as modelled; programs that do this are not accepted by `TypeOf` and are given no meaning.
- Printing a template and parsing it again is taken for the identity on trees; the parentheses of one-element sequences are lost in print.
- The lower bound of a `for` is a literal, as the desugarer demands; others are rejected by `TypeOf`.
- Desugared, renamed and expanded trees are built anew; the original overwrites names in place.  The same goes for the types `TypeVisitor` writes onto nodes.
- `std::map` and `std::set` are maps and sets without an order of addresses; where the order shows, in lifted parameters, any order is allowed.
- Rebind.RebindsAlike: variables, functions and breaks; for type names see `TypeNames.TypesRebind`, on a tree of what the program has to do with types.
- Rebind.ProgramRebinds: the same.
- Redefinition.RedefinitionExact: variables and functions; for types see `TypeNames.RedefinitionExact`.  To variables and functions a chunk of types is an empty chunk of functions; where a call or a record names what is not bound at all, which parts are visited is taken for given in `TypeNames`.
- Numbering.ProgramNumbered: variables and functions; types and methods, which share the count, do not occur in core programs.
- The binder on record and object expressions, and the location texts of its messages; several variables in one chunk occur in `Redefinition.BindVarChunk` only.
- The pointer specialisation of the scoped map's `get`.
- Collected.Collect: whether the collected map is the least closed one is told from the text for programs whose functions hold no functions and do not call `_main`; for nested chunks, whose inner loops restore the flag of the outer one, only termination, soundness and the equivalence with closedness are stated.
- Type soundness leaves out `nil`, casts, objects and calls other than `streq` and `strcmp`; reading past the end of an array is an outcome of its own.
- The recovery types the checker gives to nodes it has complained about, beyond what termination needs.
- Classes and methods in the binder, the renamer and the type checker; overloads, bounds checking, pruning and combining of chunks.
- Constructors, `new` expressions and the texts of methods in the object desugarer; only the functions that cast and dispatch are modelled.
- Cyclic dependencies between tasks, on which the original recurses without end; running the tasks; the command-line options of task modules.
- The widths of clock readings, and dumping, merging and copying timers.
- The scanner, the parser, text assembled from templates and pretty printing.
