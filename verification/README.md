# VNT in Dafny

VNT is a compiler written in C, with a native runtime and a build driver. This project models
the parts of it where something can go subtly wrong and proves what those parts promise. Each
component is modelled in the form it has in C: the in-place passes, fixed points, code generator
and decoders are methods and classes with loops, each proved against a mathematical definition
of what it computes; the properties are lemmas about those definitions.

Run `dafny verify dfyconfig.toml` in this directory to check everything.

## Components

- **Syntax.** `Syntax`, `ExpressionGrammar`, `ExpressionRoundTrip`, `ExpressionReprint`,
  `ExpressionParser`: the expression parser of `src/parser`. Writing a tree with as few
  parentheses as possible and parsing it gives the tree back, exactly when the nesting and
  operator limits leave room. `ExpressionSpelling` spells this out token by token, with the
  operators, their six tiers, keywords, escapes and limits written out.
- **Scoping.** `Scopes`, `ScopeChecker`, `ScopeResolver`: the symbol stacks of the type checker
  and of the resolver, against lexical scoping with immutable environments.
- **HIR optimizer.** `Hir` and `HirSemantics` define the flat node arrays and what programs mean
  (variables, output, traps; calls, inline assembly and memory are arbitrary functions of the
  whole state, as the optimizer assumes). `HirValidate`, `HirValidator`: validation.
  `HirRewrite*`, `HirPropagate*`, `HirStale`, `HirShrink`, `HirClosure`: folding, control-flow
  simplification and constant propagation as functions on trees, their soundness, and the
  programs on which they are sound. `HirArray`, `HirFold`, `HirSimplify`, `HirConstants`,
  `HirPropagatePass`, `HirCompact`, `HirOptimizer`: the passes in place on the array.
  `HirLate`: where propagation goes wrong. `HirArithmetic`: what every operator computes, in
  plain arithmetic, for the evaluator, for folding and for the machine's division. `HirNormal`:
  what the passes leave behind. `HirShapes`: the child roles validation accepts. `HirFuel`: the
  bound on a run only decides whether it ends.
- **Control flow and data flow.** `Cfg*`: block construction, constant-branch folding, pruning
  and renumbering, definite assignment and liveness. `CfgMeaning` relates walks through the
  blocks to runs of the HIR, `CfgUses` what a statement is taken to read and set to what it does,
  `CfgUnset` and `CfgDead` what the two analyses promise about runs; `CfgEarlyCall` is an accepted
  program that still reads an unset global.
- **Freestanding code generator.** `X86` is the target machine, `Freestanding` the integer and
  boolean subset, its evaluator and the emitted code; `Freestanding*` prove that the code does
  what the program means. `FreestandingAccepts` says which programs are emitted, and
  `FreestandingMeaning` that the subset means what the HIR means.
- **Hosted calls.** `HostedCalls`: the calling sequences of the hosted back end.
- **Asynchronous requests.** `AsyncPool` is the pool as a state machine over its critical
  sections, `AsyncRing` the circular buffers, `AsyncRequests` the pool in place.
- **HTTP chunks.** `Chunked`, `ChunkedFraming`, `ChunkedBuffer`, `ChunkedStream`: the
  whole-buffer decoder, the incremental decoder and the completeness check (section 7.1 of RFC
  9112). `ChunkedMessage`: the messages of that section, byte by byte, which are what the decoders
  accept.
- **Big integers.** `Bigint`, `BigintArithmetic`: signed decimal strings.
- **Build tasks.** `TaskGraph`, `TaskRunner`: the dependency graph of VBuild.

## Findings

Places where the code does not do what one might expect. Each is a lemma with a concrete input,
and each comes with the exact or a sufficient condition under which all is well.

- Propagation gives a container in the arm of an `if` the facts from before the `if`, ignoring
  earlier statements of the arm (src/compiler/ir.c:750-766). `HirLate.LateContainer` is a program
  that prints another number after optimization. `HirLate.ArmExact` says when the pass is right
  for the containers after given statements: exactly when those statements keep the facts that
  the containers read. `HirPropagate.Orderly` is the check a caller can make on the tree (no
  later branch or container of the arm reads what an earlier statement may write); it is closed
  under all passes, and `HirOptimizer.Optimize` promises the meaning under it. Which statements
  keep a fact in every run is not decidable, so the two conditions differ.
- A graph is refused when its exit is unreachable (src/compiler/cfg.c:175): `while true {}` is a
  valid program without a graph (`CfgBuild.EndlessRejected`). `CfgMayEnd.ExitExact` gives the
  condition on the program text.
- The definite-assignment check takes initialised globals to be set in functions
  (src/compiler/cfg.c:462-463). `let g = f()` with `fun f() { print g }` is accepted and reads
  `g` before it is set (`CfgEarlyCall.EarlyCall`). `CfgUnset.AcceptedReadsSet`: an accepted
  program reads no unset variable when its own statements call functions only where the globals
  have been set on every path. That is sufficient; whether a function that is called too early
  then reads such a global is not decidable.
- An integer that reaches a condition through an untyped parameter or result counts as true
  exactly when its low 32 bits are not zero (`FreestandingUntyped.IntegerCondition`), and one
  that is stored in a declared boolean loses its high bits (`FreestandingUntyped.NarrowSlot`).
- A freestanding declaration without initializer silently cuts the rest of its body
  (`FreestandingProgram.CutProgram`). The parser always gives a declaration a value
  (src/parser/statements.c:69-77), so this input only arrives through the HIR interface.
- Unsafe blocks open a scope in the type checker (src/compiler/typecheck.c:927-936) and none in
  the resolver (src/compiler/ir_lower.c:350-352), so a variable of the block can be taken for one
  outside: `ScopeResolver.UnsafeLeaks`. `ScopeResolver.ResolverExact` says when this happens:
  exactly when a name that an unsafe block declared occurs again after it in the same scope.
- The whole-buffer chunk decoder takes lines of 8193 bytes, the incremental one 8192
  (`ChunkedFraming.LimitsDiffer`). Below that they agree on every input and every split.
- Both chunk decoders take the byte 0 in the name of a trailer field, which section 5.1 of RFC
  9110 does not allow: looking it up in the string of punctuation finds the end of the string
  (src/compiler/native_net.c:39-43). `ChunkedMessage.NulAccepted` is such a message;
  `ChunkedMessage.DecodeExact` says that this is the only way in which names are lax.
- Hosted builtins with more than four arguments choose their stack area for one depth: the call
  is aligned exactly when the stack was aligned before the arguments were pushed
  (`HostedCalls.BuiltinAligned`).

## Model

| member | source | states |
|---|---|---|
| `Syntax.DecimalIsRead` | src/parser/primary.c:14-51 | every decimal literal up to the magnitude of INT64_MIN fits the buffer and is read back |
| `Syntax.UnescapeEscape` | src/parser/primary.c:68-103 | decoding the escapes of an escaped string gives the string |
| `ExpressionRoundTrip.RoundTrip` | src/parser/binary.c:8-395 | parsing the minimally parenthesised tokens of any tree, followed by anything that cannot go on with it, returns that tree and exactly the following tokens, if and only if nesting and operators fit the limits; the tokens and tiers themselves are written out in the next rows |
| `ExpressionRoundTrip.WriteReads` | src/parser/primary.c:188-220 | every tree, in parentheses where needed, is read back at each of the precedence layers, after prefix operators and before suffixes |
| `ExpressionReprint.Reprint` | src/parser/parser.c:7-45 | whatever the parser accepts, written again, is accepted in the same place as the same tree with no more operators counted |
| `ExpressionSpelling.SpellingParses` | src/parser/binary.c:8-395 | the tokens that spell a tree, with operators, prefixes, keywords and brackets written out, parse to that tree and leave what follows, if and only if at most 256 levels nest and 256 operators are counted |
| `ExpressionSpelling.RowParses` | src/parser/binary.c:8-376 | a row of operands and operators of any length parses to the tree in which the six tiers bind from loosest to tightest and equal ones associate to the left |
| `ExpressionSpelling.TwoOperators` | src/parser/binary.c:8-376 | `a o1 b o2 c` parses with `o2` first exactly when its tier is tighter, for all operators and all operands that are not binary |
| `ExpressionSpelling.QualifiedParses` | src/parser/primary.c:376-476 | `m.f(args)` parses to a call of `m__f` |
| `ExpressionSpelling.HexIsRead` | src/parser/primary.c:38-51 | every number written in hexadecimal after 0x or 0X is read back |
| `ExpressionSpelling.EscapesSpelled` | src/parser/primary.c:86-101 | the five escapes by character code; any other keeps its backslash |
| `ExpressionParser.Parser.ParseExpression` | src/parser/binary.c:378-395 | returns what the grammar says, which is what `ExpressionSpelling.SpellingParses` spells out, restores both depths, and fails when nesting has failed before |
| `ExpressionParser.Parser.ParseLayer` | src/parser/binary.c:8-376 | each layer of left-associative operators consumes what the grammar says, or fails where it does; `ExpressionSpelling.RowParses` says which operators bind how tightly |
| `ExpressionParser.Parser.ParseUnary` | src/parser/unary.c:11-79 | prefix operators, with the literal INT64_MIN recognised behind a minus |
| `ExpressionParser.Parser.ParsePostfix` | src/parser/primary.c:376-476 | indexing, member access and qualified calls repeat as the grammar says |
| `ExpressionParser.Parser.ParsePrimary` | src/parser/primary.c:10-374 | literals, names, calls, arrays and parentheses |
| `ExpressionParser.Parser.ParseArguments` | src/parser/primary.c:445-465 | the separate loop over the arguments of a qualified call agrees with the loop of plain calls |
| `Scopes.KeyInjective` | src/compiler/ir_lower.c:275-304 | different declarations get different storage keys |
| `Scopes.AllGrows` | src/compiler/typecheck.c:103-108 | a block changes the meaning only of names it declares |
| `Scopes.BlockCloses` | src/compiler/typecheck.c:847-936 | branches, loops and unsafe blocks leave the names outside as they were |
| `Scopes.BindingSpelled` | src/compiler/typecheck.c:747-819 | when a binding is refused, when it declares and when it updates |
| `ScopeChecker.CheckerIsLexical` | src/compiler/typecheck.c:744-936 | the symbol stack accepts exactly the programs that lexical scoping accepts, and decides alike which assignments declare |
| `ScopeChecker.Checker.CheckProgram` | src/compiler/typecheck.c:1019-1035 | the checker in place does that |
| `ScopeResolver.AllMatch` | src/compiler/ir_lower.c:324-424 | resolving a block finds for every occurrence the declaration that lexical scoping binds, unless the name is stale |
| `ScopeResolver.ResolverExact` | src/compiler/ir_lower.c:426-488 | every accepted program resolves without error; every occurrence has the key of its lexical declaration if and only if no name declared in an unsafe block occurs again after it |
| `ScopeResolver.SafeClean` | src/compiler/ir_lower.c:350-352 | that is so for every program without unsafe blocks |
| `ScopeResolver.UnsafeLeaks` | src/compiler/ir_lower.c:350-352 | an accepted program with an unsafe block in which an outer name gets another key |
| `ScopeResolver.AllNumbers` | src/compiler/ir_lower.c:275-304 | the declarations of a block are numbered consecutively |
| `ScopeResolver.Resolver.ResolveSymbols` | src/compiler/ir_lower.c:426-488 | the resolver in place computes the resolution or fails where it does |
| `HirValidator.Validate` | src/compiler/ir.c:149-255 | accepts exactly the node arrays that are one rooted ordered tree over all nodes with the required role counts |
| `HirValidator.ValidateShape` | src/compiler/ir.c:76-147 | the role counts of one node |
| `HirValidator.Reach` | src/compiler/ir.c:219-250 | the walk from the root marks each node at most once and its stack never overflows on a tree |
| `HirValidate.TreeUnique` | src/compiler/ir.c:149-255 | an array is at most one tree |
| `HirShapes.ShapeExact` | src/compiler/ir.c:76-147 | the child roles that are accepted are exactly those that lowering produces, in any order |
| `HirValidate.TreeLinked` | src/compiler/ir.c:160-217 | a tree has the links, counts and unshared children that validation checks |
| `HirValidate.RankedTree` | src/compiler/ir.c:215-250 | links in which every node hangs below the root are a tree |
| `HirRewriteSound.FoldSound` | src/compiler/ir.c:360-465 | a folded node evaluates to the value, or keeps the trap, of the node in every state |
| `HirArithmetic.DivisionExact` | src/compiler/ir.c:419-420 | quotient and remainder are the only pair with `x == q * y + r`, a remainder smaller than the divisor, and the sign of the dividend |
| `HirArithmetic.EvaluatorExact` | src/compiler/ir.c:413-430 | each operator on integers gives exactly its result in plain arithmetic, and none where that does not fit 64 bits or divides by zero |
| `HirArithmetic.FoldExact` | src/compiler/ir.c:413-430 | a node on two integer literals is folded to exactly that result, and left alone where there is none |
| `HirArithmetic.FoldBooleansExact` | src/compiler/ir.c:430-438 | folding on two boolean literals |
| `HirArithmetic.FoldedDivision` | src/compiler/ir.c:419-420 | a folded quotient and a folded remainder of the same literals fit together |
| `HirArithmetic.PrintedExact` | src/compiler/ir.c:843-886 | `print x op y` optimized by eight rounds prints that result, or traps exactly where there is none |
| `HirArithmetic.IdivDivides` | src/compiler/freestanding_x86.c:396-412 | the division instruction leaves that quotient and remainder |
| `HirArithmetic.MachineComputes` | src/compiler/freestanding_x86.c:389-395 | addition, subtraction, multiplication and negation leave the result or set the overflow flag exactly when it does not fit |
| `HirArithmetic.MachineCompares` | src/compiler/freestanding_x86.c:420-425 | each condition after a comparison |
| `HirNormal.FoldedFully` | src/compiler/ir.c:360-465 | folding leaves no operator on literals that has a value |
| `HirNormal.RoundsLeaveNothingDead` | src/compiler/ir.c:517-594 | optimized programs have no decided condition and nothing after a return, break or continue |
| `HirRewriteSound.PruneExec` | src/compiler/ir.c:517-546 | dropping what follows a terminator changes no run |
| `HirRewriteSound.SimplifyExec` | src/compiler/ir.c:548-594 | resolving literal conditions changes no run |
| `HirRewriteSound.BottomRun` | src/compiler/ir.c:360-594 | either bottom-up pass over a whole program keeps state, output and outcome of every run, for every world of calls and memory |
| `HirFold.FoldNode` | src/compiler/ir.c:360-465 | folding in place computes the pass, whose results `HirArithmetic.FoldExact` gives, and counts a change unless nothing changed |
| `HirSimplify.PruneSequence` | src/compiler/ir.c:517-546 | pruning in place keeps links and counts |
| `HirSimplify.Simplify` | src/compiler/ir.c:548-594 | simplification in place computes the pass |
| `HirSimplify.ThenFirst` | src/compiler/ir.c:562-582 | with contiguous arms, the chosen arm is one run of siblings |
| `HirConstants.ConstantEnv.Remember` | src/compiler/ir.c:650-675 | the list of constants records the facts |
| `HirConstants.ConstantEnv.Invalidate` | src/compiler/ir.c:643-648 | forgetting a name forgets that fact only |
| `HirPropagatePass.SubstituteExpression` | src/compiler/ir.c:698-738 | substitution in place computes the substitution and the facts that survive |
| `HirPropagatePass.PropagateStatement` | src/compiler/ir.c:744-828 | propagation of a statement in place computes the pass and the facts after it |
| `HirPropagateSound.PropagateRun` | src/compiler/ir.c:688-841 | propagation keeps every outcome of a program with orderly arms |
| `HirPropagateSound.ArmsExec` | src/compiler/ir.c:750-766 | an arm runs alike when its containers read only variables whose facts hold |
| `HirStale.PropagateListUses` | src/compiler/ir.c:698-841 | the pass depends only on the facts about what it reads |
| `HirStale.ListKeeps` | src/compiler/ir.c:744-828 | statements that may not write a variable leave it as it was, through branches and loops |
| `HirShrink.BottomShrinks` | src/compiler/ir.c:360-594 | folding and simplification only take reads and writes away |
| `HirShrink.PropagateShrinks` | src/compiler/ir.c:744-828 | so does propagation |
| `HirClosure.BottomOptimizable` | src/compiler/ir.c:360-594 | the supported programs are closed under folding and simplification |
| `HirClosure.PropagateOptimizable` | src/compiler/ir.c:830-841 | and under propagation |
| `HirLate.ArmExact` | src/compiler/ir.c:750-766 | propagation is right for every container after given statements of an arm if and only if those statements keep the facts about what it may read |
| `HirLate.LateContainer` | src/compiler/ir.c:750-766 | all eight rounds on a program with a late container change what it prints |
| `HirOptimizer.RoundsSound` | src/compiler/ir.c:847-869 | any number of rounds keeps the meaning and stays in the supported programs |
| `HirOptimizer.IterateFixed` | src/compiler/ir.c:852-869 | stopping at a round without change loses nothing |
| `HirOptimizer.CanonicalShaped` | src/compiler/ir.c:76-147 | what lowering and the passes leave has the shapes that validation demands |
| `HirOptimizer.Optimize` | src/compiler/ir.c:843-886 | on every lowered array: succeeds exactly on valid trees, leaves a valid tree numbered in preorder that is the eight rounds of the source tree, with the same runs when the arms are orderly, traps and their causes included; leaves an invalid array alone |
| `HirCompact.CopyNode` | src/compiler/ir.c:467-499 | the copy is the subtree in preorder, and nothing before it changes |
| `HirSimilar.SimilarRun` | src/compiler/ir.c:467-499 | node numbers do not matter for any run |
| `CfgSimulation.SeqFollows` | src/compiler/cfg.c:52-130 | from the entry of a sequence the blocks do what a structured run does: visits, early exits, and running on |
| `CfgGraph.RootExact` | src/compiler/cfg.c:52-130 | a run and a walk from a root end alike, in both directions, and no walk leaves the graph |
| `CfgGraph.FoldWalk` | src/compiler/cfg.c:206-221 | folding constant branches changes no walk |
| `CfgGraph.RenumberWalk` | src/compiler/cfg.c:134-204 | pruning and renumbering change no walk |
| `CfgGraph.BuiltExact` | src/compiler/cfg.c:52-249 | blocks that are the folded, pruned and renumbered layout of some roots do, from each entry, exactly what the statements of that root do |
| `CfgBuilder.BuildSequence` | src/compiler/cfg.c:100-130 | laying out a sequence appends its code, or fails where there is none |
| `CfgPrune.Prune` | src/compiler/cfg.c:134-204 | succeeds exactly when the exit is reachable, and keeps exactly the reachable blocks in order |
| `CfgMayEnd.SeqEndsMay` | src/compiler/cfg.c:52-130 | a run ends only in ways the text allows |
| `CfgMayEnd.SeqChoices` | src/compiler/cfg.c:52-130 | every way the text allows is taken for some choices, without a second turn of any loop |
| `CfgMayEnd.ExitExact` | src/compiler/cfg.c:171-178 | the exit is reachable if and only if the program or some function may come to its end or a return |
| `CfgBuild.SeqCodeExists` | src/compiler/cfg.c:64-97 | code exists exactly when breaks and continues are inside loops |
| `CfgBuild.RootsExist` | src/compiler/cfg.c:223-249 | the same for all roots of a valid tree |
| `CfgBuild.ValidateGraph` | src/compiler/cfg.c:251-290 | accepts exactly well-formed graphs |
| `CfgBuild.BuildGraph` | src/compiler/cfg.c:223-249 | a graph is built exactly for valid trees with the jumps of the program and of every function body inside loops and of which one may end; it is the pruned, folded layout, and the final validation never rejects |
| `CfgBuild.GraphExact` | src/compiler/cfg.c:223-249 | each root of a graph that is built does exactly what its statements do, on any machine from any state; which roots these are is in the next rows |
| `CfgBuild.EndlessRejected` | src/compiler/cfg.c:175-178 | a valid program for which no graph is built |
| `CfgBuild.GraphSpelled` | src/compiler/cfg.c:223-249 | a graph has one entry for the program and one for each function, in node order; a walk from each does exactly what the statements of the program, or of the body of that function, do |
| `CfgMeaning.GraphMeaning` | src/compiler/cfg.c:52-249 | with statements executed as the HIR says, a walk from an entry ends in a state, with a value or in a trap if and only if the run of those statements does |
| `CfgDataflow.SolvedCovers` | src/compiler/cfg.c:492-546 | the solved equations give exactly what holds on all paths |
| `CfgUses.StatementExact` | src/compiler/cfg.c:340-401 | the outcome of a statement without calls depends on nothing but the variables it is taken to use, and it sets exactly those it is taken to define |
| `CfgUses.DefinesExactly` | src/compiler/cfg.c:368-401 | a statement without calls that ends has set exactly the variables it is taken to define |
| `CfgUses.UnsetTraps` | src/compiler/cfg.c:340-366 | a strict expression that reads an unset variable traps |
| `CfgUses.SafeStatement` | src/compiler/cfg.c:340-401 | a statement whose uses are set reads no unset variable, and its definitions are set afterwards |
| `CfgDataflow.AssignmentExact` | src/compiler/cfg.c:492-546 | a lemma for the whole check below: in a separate, reachable graph the solution of the equations covers a read if and only if on every path from every entry the variable is in the seed or defined before |
| `CfgDataflow.LivenessExact` | src/compiler/cfg.c:568-629 | the solution is exactly the paths that read before they define |
| `CfgSeparate.BuiltAnalysable` | src/compiler/cfg.c:223-249 | built graphs are separate between functions and fully reachable, as the analysis needs |
| `CfgEffects.CollectVariables` | src/compiler/cfg.c:301-338 | all names that occur, once each |
| `CfgEffects.VariableIndex` | src/compiler/cfg.c:318-323 | the index of a name, or none |
| `CfgEffects.CollectEffects` | src/compiler/cfg.c:340-401 | reads and definitions of every block, which `CfgUses.StatementExact` ties to what statements do |
| `CfgAssignment.MeetPredecessors` | src/compiler/cfg.c:509-520 | the meet over predecessors |
| `CfgAssignment.CheckPaths` | src/compiler/cfg.c:475-557 | the check over a built graph succeeds exactly when every read is assigned on all paths, reads and assignments being those of `CfgUses.StatementExact` |
| `CfgAssignment.CheckDefiniteAssignment` | src/compiler/cfg.c:418-557 | the check of a program, seeds and fixed point included, succeeds if and only if on every path from every entry each variable read is seeded or assigned before |
| `CfgUnset.FunctionSeed` | src/compiler/cfg.c:475-490 | a function starts with the initialised globals and its parameters set |
| `CfgUnset.ProgramSeed` | src/compiler/cfg.c:475-480 | the program starts with nothing set |
| `CfgUnset.GlobalsSpelled` | src/compiler/cfg.c:462-473 | those globals are what top-level declarations with a value declare |
| `CfgUnset.AcceptedReadsSet` | src/compiler/cfg.c:418-557 | a program that the check accepts never traps on an unset variable, in itself or in a function, if its own statements call functions only where the globals have been set |
| `CfgEarlyCall.EarlyCall` | src/compiler/cfg.c:462-473 | an accepted program that calls a function too early and traps on an unset global |
| `CfgLiveness.JoinSuccessors` | src/compiler/cfg.c:601-607 | the union over successors |
| `CfgLiveness.ComputeLiveness` | src/compiler/cfg.c:568-629 | the backward iteration ends, and live-in and live-out are exactly what some path reads before defining; `CfgDead.DeadUnread` says what that means for runs |
| `CfgLiveness.Liveness.LiveIn` | src/compiler/cfg.c:631-635 | tells whether a variable is live into a block |
| `CfgDead.DeadUnread` | src/compiler/cfg.c:568-635 | where a variable is not live it can be changed: the walk goes on through the same blocks to the same end, output, value and trap |
| `FreestandingGen.Generator.EmitExpression` | src/compiler/freestanding_x86.c:167-435 | appends exactly the code of the expression, or fails where there is none, which is where `FreestandingAccepts.ExprAccepted` says |
| `FreestandingGen.Generator.EmitStatement` | src/compiler/freestanding_x86.c:437-547 | the same for statements, with the loop stack restored |
| `FreestandingGen.Generator.EmitProgram` | src/compiler/freestanding_x86.c:559-700 | the generator emits the whole image, or fails exactly on the programs that `FreestandingAccepts.EmittedExact` excludes |
| `FreestandingLabels.BlockFresh` | src/compiler/freestanding_x86.c:137-140 | the labels of code are fresh and used once |
| `FreestandingSteps.BranchRuns` | src/compiler/freestanding_x86.c:506-530 | testing a boolean and jumping on it |
| `FreestandingFrames.TableFacts` | src/compiler/freestanding_x86.c:36-111 | slots are distinct and parameters come first |
| `FreestandingSound.ExprRuns` | src/compiler/freestanding_x86.c:167-435 | from any state the code leaves the value in %rax, restores the stack pointer and changes no memory in use; it reaches the fault label exactly when the evaluator overflows or divides badly |
| `FreestandingSound.InvokeRuns` | src/compiler/freestanding_x86.c:286-310 | a call with aligned stack and arguments in registers returns the function's value, with frame pointer and memory in use kept |
| `FreestandingSound.StmtRuns` | src/compiler/freestanding_x86.c:437-547 | statements change exactly the slots they assign and go on, jump or return as they mean |
| `FreestandingSound.FuncRuns` | src/compiler/freestanding_x86.c:645-663 | prologue, body and epilogue of a function |
| `FreestandingTypes.EnterSafe` | src/compiler/typecheck.c:747-1017 | in a well-typed program no call gets stuck, and results have their type |
| `FreestandingProgram.ImageGood` | src/compiler/freestanding_x86.c:559-700 | the image has every label once and every function in place |
| `FreestandingAccepts.EmittedExact` | src/compiler/freestanding_x86.c:167-700 | a program is emitted if and only if, on its syntax, names are distinct, `kernel_main` takes nothing, parameters are at most six, calls fit, jumps are in loops and at most 64 loops nest |
| `FreestandingAccepts.TypedEmitted` | src/compiler/freestanding_x86.c:559-700 | for well-typed programs only the names, `kernel_main`, six parameters and 64 loops matter |
| `FreestandingProgram.ProgramRuns` | src/compiler/freestanding_x86.c:559-700 | the code of a well-typed program returns the value of kernel_main in %rax with memory in use untouched and halts, traps exactly on overflow or bad division, or runs on |
| `FreestandingProgram.ProgramExact` | src/compiler/freestanding_x86.c:607-671 | at every step count the machine is not broken, and a trap or a halt is what the program means |
| `FreestandingAccepts.TypedRuns` | src/compiler/freestanding_x86.c:559-700 | every such well-typed program is emitted and its code does what it means |
| `FreestandingMeaning.EnterMeans` | src/compiler/freestanding_x86.c:286-547 | a call in the freestanding subset gives what a call of the same function gives in the HIR |
| `FreestandingMeaning.CompiledMeans` | src/compiler/freestanding_x86.c:559-700 | the emitted code returns, traps or runs on as the HIR call of `kernel_main` does |
| `FreestandingProgram.CutProgram` | src/compiler/freestanding_x86.c:461-464 | a declaration without initializer cuts its body silently |
| `FreestandingUntyped.IntegerCondition` | src/compiler/freestanding_x86.c:505-510 | an integer condition holds exactly when its low 32 bits are not all zero |
| `FreestandingUntyped.NarrowSlot` | src/compiler/freestanding_x86.c:465-466 | an integer in a boolean's slot is read back without its high bits |
| `HostedCalls.RuntimeRuns` | src/compiler/x86_backend.c:126-146 | a runtime call is aligned from every depth and leaves registers and stack pointer as they were |
| `HostedCalls.SmallCall` | src/compiler/x86_backend.c:168-191 | a call of up to four arguments is aligned, has them in %rcx, %rdx, %r8 and %r9 and pops them |
| `HostedCalls.LargeCall` | src/compiler/x86_backend.c:152-207 | a call of any larger number is aligned from every depth, has every argument where the callee reads it, overwrites none unread, and cleans up |
| `HostedCalls.ForeignCall` | src/compiler/x86_backend.c:209-236 | the same for foreign calls, with zeros for arguments not given |
| `HostedCalls.Delivered` | src/compiler/x86_backend.c:591-593 | the prologue's address of each parameter holds the argument |
| `HostedCalls.BuiltinAligned` | src/compiler/x86_backend.c:311-316 | builtins with more than four arguments are aligned if and only if the stack was before their arguments |
| `HostedCalls.EmitUserCall` | src/compiler/x86_backend.c:168-207 | the emitting loops produce the sequence |
| `AsyncPool.NextInv` | src/compiler/native_async_net.c:117-276 | every action keeps slot ownership, distinct handles and stream accounts |
| `AsyncPool.RunInv` | src/compiler/native_async_net.c:117-276 | they hold in every reachable state of any interleaving |
| `AsyncPool.QueueHasRoom` | src/compiler/native_async_net.c:237-250 | the queue is not full while a slot is free |
| `AsyncPool.PoppedState` | src/compiler/native_async_net.c:162-177 | a popped slot is queued or cancelled |
| `AsyncPool.OwnerStable` | src/compiler/native_async_net.c:190-203 | nobody clears or reuses the slot of a running worker |
| `AsyncPool.ReleaseDrained` | src/compiler/native_async_net.c:398-414 | a finished stream is released only when everything pushed has been taken |
| `AsyncPool.Lifecycle` | src/compiler/native_async_net.c:159-414 | which action takes a slot from which state to which, for every state and action |
| `AsyncPool.InTurn` | src/compiler/native_async_net.c:163-165 | requests are taken in the order in which they were started, in any interleaving |
| `AsyncPool.LeavingStep` | src/compiler/native_async_net.c:163-201 | a cancelled and released request keeps its slot until its queue entry is taken or its worker finishes, and then the slot is free |
| `AsyncPool.ReleaseReclaims` | src/compiler/native_async_net.c:398-414 | after the release of a cancelled request its slot is, at every later time of any run, still held by queue or worker, or has been freed |
| `AsyncPool.PushWhole` | src/compiler/native_async_net.c:117-141 | whatever happens in between, a push that sends everything has appended exactly its data |
| `AsyncRing.Ring.Push` | src/compiler/native_async_net.c:127-134 | appends as many elements as fit, around the end of the buffer |
| `AsyncRing.Ring.Take` | src/compiler/native_async_net.c:477-483 | removes elements from the front |
| `AsyncRequests.Requests.StartRequest` | src/compiler/native_async_net.c:228-276 | is the start action; fails exactly when no slot is free |
| `AsyncRequests.Requests.FreshHandle` | src/compiler/native_async_net.c:254-264 | the handle search ends with an unused positive handle |
| `AsyncRequests.Requests.PushSome` | src/compiler/native_async_net.c:117-141 | one turn of a push on the slot's buffer is the push action |
| `AsyncRequests.Requests.StreamRead` | src/compiler/native_async_net.c:463-488 | a read returns the front of the slot's buffer and is the take action |
| `AsyncRequests.Requests.PopRequest` | src/compiler/native_async_net.c:161-179 | is the pop action |
| `AsyncRequests.Requests.FinishRequest` | src/compiler/native_async_net.c:190-203 | is the finish action |
| `AsyncRequests.Requests.CancelRequest` | src/compiler/native_async_net.c:341-372 | is the cancel action; succeeds exactly on queued and running requests |
| `AsyncRequests.Requests.ReleaseRequest` | src/compiler/native_async_net.c:398-414 | is the release action; succeeds exactly on cancelled requests and on finished ones without unread stream bytes |
| `Chunked.FeedSplit` | src/compiler/native_net.c:965-1034 | feeding parts is feeding the whole |
| `Chunked.DecodeFeeds` | src/compiler/native_net.c:947-1034 | the incremental decoder ends with what the whole buffer decodes to under its line limit |
| `ChunkedFraming.DecodeIsStrict` | src/compiler/native_net.c:135-201 | the decoder accepts exactly complete buffers whose lines are clean, short and well-formed, and returns the framed body |
| `ChunkedFraming.DecodedIsComplete` | src/compiler/native_net.c:676-712 | whatever decodes passes the completeness check |
| `ChunkedFraming.DecodeExtends` | src/compiler/native_net.c:135-201 | once complete, more input changes neither whether nor how a buffer decodes |
| `ChunkedFraming.BodyIsShorter` | src/compiler/native_net.c:135-201 | output is shorter than input |
| `ChunkedFraming.IncrementalIsWhole` | src/compiler/native_net.c:965-1034 | in any split, the incremental decoder finishes with an output if and only if the whole-buffer decoder returns it and no line exceeds 8192 bytes |
| `ChunkedFraming.LimitsDiffer` | src/compiler/native_net.c:144-147 | a line of 8193 bytes tells them apart |
| `ChunkedMessage.HexValueExact` | src/compiler/native_net.c:947-963 | the size is the number that the digits "0123456789abcdef", of either case, denote, unless it does not fit |
| `ChunkedMessage.DecodeExact` | src/compiler/native_net.c:135-201 | the whole-buffer decoder accepts exactly the buffers that begin with a message of sizes, data, a zero size and trailer fields with lines of at most 8193 bytes, and returns the data |
| `ChunkedMessage.IncrementalExact` | src/compiler/native_net.c:965-1034 | the incremental decoder does, however the bytes arrive, with lines of at most 8192 |
| `ChunkedMessage.CompleteExact` | src/compiler/native_net.c:676-712 | a buffer is taken to be complete if and only if it begins with sizes that fit their data, a zero size and fields that each have a colon |
| `ChunkedMessage.NulAccepted` | src/compiler/native_net.c:39-43 | a message with the byte 0 in a field name decodes |
| `ChunkedBuffer.DecodeChunked` | src/compiler/native_net.c:135-201 | the loops return the decoded body, NUL-terminated, or fail where decoding does |
| `ChunkedBuffer.BodyComplete` | src/compiler/native_net.c:676-712 | the completeness check tells whether the buffer is framed |
| `ChunkedBuffer.ParseSizeAt` | src/compiler/native_net.c:947-963 | the chunk size, or a failure on other characters and on overflow |
| `ChunkedStream.ChunkStream.FeedBlock` | src/compiler/native_net.c:965-1034 | feeding a block of any size is feeding its bytes |
| `Bigint.CanonicalUnique` | src/compiler/native_runtime.c:1676-1688 | canonical strings of the same number are the same |
| `BigintArithmetic.Parse` | src/compiler/native_runtime.c:1656-1670 | parses exactly signed decimal strings, without leading zeros or negative zero |
| `BigintArithmetic.CompareMagnitudes` | src/compiler/native_runtime.c:1671-1675 | length and first difference decide which magnitude is larger |
| `BigintArithmetic.AddMagnitudes` | src/compiler/native_runtime.c:1689-1706 | the carry loop gives the sum |
| `BigintArithmetic.SubtractMagnitudes` | src/compiler/native_runtime.c:1707-1718 | the borrow loop gives the difference, with no borrow left |
| `BigintArithmetic.MultiplyMagnitudes` | src/compiler/native_runtime.c:1738-1751 | the schoolbook rows give the product, every cell a single digit |
| `BigintArithmetic.NumeralsSpelled` | src/compiler/native_runtime.c:1656-1670 | the decimal numeral of a number, with a plus sign, a minus sign or none, stands for that number |
| `BigintArithmetic.Binary` | src/compiler/native_runtime.c:1719-1769 | each operation on two decimal strings gives the mathematical result in canonical form, and fails exactly on strings that are no numbers unless they are too long |
| `TaskGraph.OrderedAcyclic` | tools/vbuild.c:660-676 | tasks that can be ordered after their dependencies have no cycle |
| `TaskRunner.ValidateGraph` | tools/vbuild.c:811-823 | the depth-first search accepts exactly acyclic task graphs |
| `TaskRunner.RequiresLock` | tools/vbuild.c:1465-1479 | the lock is taken if and only if some task that is reached builds, runs, cleans or tests |
| `TaskRunner.ExecuteTask` | tools/vbuild.c:1445-1463 | performs needed tasks only, each once and after its dependencies, and stops at the first failure |
| `TaskRunner.RunTask` | tools/vbuild.c:1505-1523 | a whole invocation: refuses unusable build files and unknown names, locks when needed, and on success has performed everything its build task reaches |

## Left out

- `HirOptimizer.Optimize`: the same runs are promised when the arms are orderly; that condition is
  sufficient, and sharp only per arm (`HirLate.ArmExact`).
- `HirOptimizer.Optimize`: top-level `return`, `break` and `continue` are outside the promise, as
  type checking rejects them (src/compiler/typecheck.c:898, 1001-1009).
- Floats, the float constant table and float folding.
- Lowering itself: that it leaves nodes in the child order of `Hir.CanonicalNode` is taken from
  src/compiler/ir_lower.c:120-250.
- Freestanding code for strings, byte indexing, raw memory, MSR, CR2, atomic exchange,
  symbol_address and inline assembly; functions have distinct parameter names
  (src/compiler/typecheck.c:962-967).
- `FreestandingProgram.ProgramRuns`: the stack below the start is taken to have room; the image
  reserves 16 KiB and the code does not check.
- `CfgUnset.AcceptedReadsSet`: calls, assembly and memory writes are taken to unset nothing.
- `CfgUses.StatementExact`: reading memory is taken not to depend on variables.
- `FreestandingMeaning.CompiledMeans`: the subset without memory, strings and assembly.
- `FreestandingTypes.EnterSafe`: the types are given with the program; inferring them, dynamic
  variables and the messages of the type checker are not modelled.
- `ScopeChecker.CheckerIsLexical`: only names and scopes; types, nested functions and struct
  declarations are not modelled, and the HIR is a tree of names here.
- In-place integer mutation in the hosted back end, whose alias scan does not look at where a box
  came from, and everything else of that back end than its calling sequences.
- `HostedCalls.LargeCall`: evaluation of the arguments and the labels of the two branches; the
  branch on the alignment of the stack pointer is a choice here.
- `AsyncPool.RunInv`: one client; `wait` and `stream_read` hold a slot pointer across a condition
  wait, so a second client could release the slot meanwhile.
- `AsyncPool.NextInv`: at the largest handle the counter overflows a signed int, undefined in C;
  it is taken to go on at 1. Responses, status codes and transports are left out.
- `ChunkedStream.ChunkStream.FeedBlock`: the sink always accepts.
- `TaskRunner.RunTask`: reading the build file, the configuration and the project lock are left
  out; the outcome of each action is a parameter.
- `BigintArithmetic.Binary`: the C code exits the process where this returns a failure.
- `Syntax.Magnitude`: strtoll and strtoull are modelled on texts of digits, which is all the lexer
  gives them; white space and signs are not.
- Sockets, TLS, proxies, GUI, processes, files, time, JSON and SHA-256; module loading, build
  fingerprints and the manifest; built-in name tables; the older C-emitting back end; failures to
  allocate memory.
