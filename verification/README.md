# Verification of Roto

A Dafny model of the parts of the Roto compiler whose correctness rests on an
argument rather than on a local reading of the code, with proofs of what those
parts are for. `dafny verify dfyconfig.toml` checks everything.

## What is modelled

**Order of compilation** (`Digraph`, `Tarjan`, `ValueCycle`). Constants and
functions are compiled in the order of their strongly connected components.
`Tarjan` is the algorithm with its explicit stack and lowlinks; `ValueCycle` is
the search for recursive constants and for constants that use the context. Names
that are only referred to have no entry of their own and no successors.

**Type cycles** (`Types`, `TypeCycle`). The depth-first search with temporary
and permanent marks over named types, through nested anonymous records.

**Operators** (`Precedence`, `Operators`, `Grammar`). The operator loop of the
parser, with everything below it (negation, access) reduced to an atom. Trees
are flattened with the inverse of `peek_binop`. `Grammar` says which trees these
are without precedences, in operators alone. The `Display` of operators is not
the inverse of reading them: `src/ast.rs:407-410` prints other inequality signs
than are read (`DisplayIsRead`).

**From source to MIR and dead code elimination** (`Ast`, `Mir`, `Lowering`,
`Lowerer`, `LoweringShape`, `LoweredNames`, `LoweringTypes`, `TypedCode`,
`LoweringSim`, `LoweringRuns`, `LoweredFunctions`, `DeadCode`, `Pipeline`).
`Ast` gives the modelled expressions an evaluation in which loops are bounded by
fuel. `Mir` gives blocks a machine in which every variable owns a value or is
empty: moves, drops and returns take the value out; using an empty variable is
`Stuck`; overwriting a value that needs a drop is recorded in `lost`. Types
without storage (unit, `!`, and types that inference leaves open) are one type.
`Lowering` states each lowering step as a function on states, `Lowerer` is the
lowerer as it is written, an object whose methods are proved to perform those
functions. `LoweringShape` proves what every step keeps (labels, terminators,
frames), `LoweringTypes` and `TypedCode` at which types instructions work.
`LoweringSim` says what it means that a run matches an evaluation; one module
for each construct (`LoweringExprs`, `LoweringStmts`, `LoweringBlocks`,
`LoweringLogic`, `LoweringBranches`, `LoweringLoops`, on top of `LoweringStages`
and `LoweringGlue`) proves its single steps, and `LoweringRuns` joins them by
induction over evaluations. `LoweringHeads` shows that loop heads can be told
apart by their labels. The operators themselves are arbitrary functions, so
nothing depends on what they compute. `LoweredFunctions` puts this together for
whole functions, in both directions and through dead code elimination.

**Divergence flags** (`Divergence`, `Leaks`, `LoweringLimits`). The type checker
flags blocks as diverging. It sets the flag too often: an `&&` or `||` is
flagged if its right operand is, and a `while` if its body is, although both may
be skipped (`src/typechecker/expr.rs:515-531` and `:918-927`). `FlaggedOperand`
and `FlaggedBody` say exactly when such a flag is right. A flag that is wrong
has two consequences.

- A flagged block without a last expression has the unit type, but is not
  compared with the type that is expected of it
  (`src/typechecker/expr.rs:112-124`). If it completes all the same, there is no
  value of the expected type. The reference evaluation goes on without one until
  something asks for it, and calls that a slip. `LoweringIsCorrect` holds for all
  flags and proves that lowered code gets stuck exactly there; `FallsOff` is a
  function that is accepted and does so.
- Lowering emits no drops at the end of a flagged block. If the block completes,
  results are right, but what its frame holds is not dropped
  (`SkippedDropIsLost`, `FlaggedBlockLeaks`).

Drops are missed in one more place. Temporaries of a loop condition live in the
frame around the loop. If one of them needs a drop, the next iteration
overwrites it (`LoopLoses`).

`Leaks` states both events in terms of the source: an evaluation leaks if a
flagged block completes while its frame holds something managed, or a loop
starts over whose condition has left something managed. What a frame holds is a
predicate on the syntax that is proved to be what lowering does (`RestIsExact`).
`DropsAreExact` then says that the drops of a call that yields a value are
complete if and only if its evaluation leaks nothing, and `DropsSoFarAreExact`
says the same of calls that are still running or never end, at the loop heads
they come to. `Tidy` and `Trusted` are guards on the source under which no
evaluation leaks or slips (`TidyIsClean`, `TrustedIsClean`).

**Layout** (`Layouts`, `Places`, `Locations`). Sizes, alignments, the builder,
the interning pool, `layout_of`, and the separate computation of offsets in
`location` and `get_field`. Both agree at every depth, with one exception:
`layout_of` leaves out a variant with an uninhabited field, and `location` does
not. The places of such a variant lie inside the layout of the enum if and only
if that layout covers what exists of the variant (`VariantIsInside`, and
`UninhabitedVariantIsOutside` for an enum where it does not). `Locations` says
what `location` answers: which bytes a path leads to, and when it leads nowhere.

**Type variables** (`UnionFind`). Path compression and linking.

**Checked memory** (`LirMemory`, `PlacesInMemory`). The memory of the LIR
evaluator. Its bounds check admits accesses that end at the end of an
allocation; the comment above it says `<` where the code has `<=`
(`src/lir/eval.rs:42`, `src/lir/eval.rs:256`). Its alignment check asks for a
multiple of the size, not of the alignment. Scalars in an aligned variable
always meet it; a record inside a record need not (`NestedRecordIsRejected`).

## Reading the main results

- A panic of the source is the value `Stuck`, `Ice`, `None`, `false` or the flag
  `panicked`, never a precondition, except where a caller outside the model
  guarantees the opposite: declared names, references inside the pool, pointers
  that exist.
- Theorems about runs quantify over all stores, all lengths and all inputs.
  Where evaluation is bounded by fuel, a timeout is matched by a run of at least
  that many steps, which is what makes the equivalences hold in both directions.
- Preconditions called `Typed...` state what the type checker establishes for
  programs that give no value to what they declare as `!`, in particular that
  every `let` declares a new resolved name. They say nothing about divergence
  flags. `OneTypeEach`, which the drop theorems need, says that a
  resolved name is declared with one type wherever it is declared.
- Completing means coming to the end of an expression or block, rather than
  returning or running on.

## Model

| member | source | states |
|---|---|---|
| Tarjan.Tarjan | src/typechecker/value_cycle.rs:199-211 | the components list every key and every edge target exactly once; two vertices share a component if and only if each reaches the other; what a vertex reaches is in its own component or an earlier one |
| Tarjan.StronglyConnect | src/typechecker/value_cycle.rs:213-252 | one visit extends the run invariant: the vertex is numbered, everything it reaches is on the stack or finished, its lowlink is witnessed, and the stack below it is as before unless a component has been closed |
| Tarjan.State.PopComponent | src/typechecker/value_cycle.rs:241-251 | the pop loop takes exactly the part of the stack from the vertex upwards, in popping order, as one component |
| Tarjan.PopKeepsComponents | src/typechecker/value_cycle.rs:241-251 | closing a component whose lowlink is its index keeps the listed components a partition of mutually reachable vertices with edges only to earlier ones |
| Tarjan.DecompositionIsTopological | src/typechecker/value_cycle.rs:213-252 | if no edge leaves a component for a later one, nothing a component reaches comes later |
| Tarjan.DecompositionIsStrong | src/typechecker/value_cycle.rs:213-252 | together with that, sharing a component is the same as reaching each other |
| ValueCycle.FindCompilationOrder | src/typechecker/value_cycle.rs:54-98 | succeeds if and only if no constant reaches itself by an edge and none reaches a context variable; on success every name occurs once, after what it reaches unless that reaches it back; on failure the named constant is really at fault |
| ValueCycle.ContextCheck | src/typechecker/value_cycle.rs:100-123 | fails if and only if some constant with an entry reaches a context variable, on every graph, cyclic or not |
| ValueCycle.DetermineUsesContext | src/typechecker/value_cycle.rs:125-163 | yes is always right; no keeps the set of visited names closed apart from the names still in progress, whatever single memo entries say |
| ValueCycle.ClosedMeansNoContext | src/typechecker/value_cycle.rs:125-163 | once nothing is in progress, a closed visited set without context variables answers for all names in it |
| ValueCycle.StoredFalseIsWrong | src/typechecker/value_cycle.rs:129-160 | while a cycle is in progress a memo entry that is stored as false can be wrong: an example, with the successors visited in a fixed order |
| ValueCycle.LargeComponentIsCyclic | src/typechecker/value_cycle.rs:73-92 | a constant in a component of more than one name depends on itself |
| ValueCycle.SmallComponentIsAcyclic | src/typechecker/value_cycle.rs:55-92 | a constant alone in its component and without an edge to itself does not |
| ValueCycle.FlattenIsOrder | src/typechecker/value_cycle.rs:97 | the flattened components are a compilation order |
| ValueCycle.ConstantsComeAfterDependencies | src/typechecker/value_cycle.rs:26-48 | in such an order everything a constant depends on strictly precedes it |
| TypeCycle.DetectTypeCycles | src/typechecker/type_cycle.rs:35-45 | with all names declared: Ok if and only if no type variable is left and the relation "a field names this type" is acyclic, in whatever order names are visited; Ok yields a ranking; an error has a witness |
| TypeCycle.VisitName | src/typechecker/type_cycle.rs:48-81 | a visit either finds a real cycle or variable, or marks the name and leaves the names in progress as they were |
| TypeCycle.Visit | src/typechecker/type_cycle.rs:84-108 | the same for a field type, through nested anonymous records |
| TypeCycle.Marks.Finish | src/typechecker/type_cycle.rs:78 | a permanent mark extends the ranking: all names the fields mention are ranked already |
| TypeCycle.RankingIsAcyclic | src/typechecker/type_cycle.rs:27-34 | a ranking of all types rules out cycles |
| TypeCycle.RankDecreases | src/typechecker/type_cycle.rs:27-34 | whatever a type contains, at any depth, is ranked strictly before it |
| TypeCycle.MentionedIs | src/typechecker/type_cycle.rs:84-108 | the names a field type mentions are those at the end of a path through anonymous records: not those in function types or type arguments |
| TypeCycle.UnresolvedIs | src/typechecker/type_cycle.rs:84-108 | a field type is unresolved if and only if one of the four kinds of type variable is at the end of such a path |
| Operators.Parser.ParseBinopExpr | src/parser/expr.rs:311-369 | the loop over the mutable position computes the reading function BinopExpr and leaves exactly the unread tokens |
| Operators.BinopExprSound | src/parser/expr.rs:311-369 | a returned tree is well formed, respects the lower bound, and flattens to exactly the tokens consumed |
| Operators.BinopLoopSound | src/parser/expr.rs:320-366 | the same for the loop that grows the left operand |
| Operators.ParserFollowsTree | src/parser/expr.rs:311-369 | from any lower bound the parser retraces a well-formed tree |
| Operators.RoundTrip | src/parser/expr.rs:311-369 | parsing what a well-formed tree flattens to gives back that tree |
| Operators.ParserIsExact | src/parser/expr.rs:311-389 | the parser returns a tree if and only if it is a well-formed reading of the longest operator expression at the front |
| Operators.ReadingIsUnique | src/parser/precedence.rs:45-93 | a token sequence has at most one well-formed tree |
| Operators.RejectsExactlyAmbiguous | src/parser/expr.rs:320-366 | atom (op atom)* is rejected if and only if the operators include both logical operators, or two comparisons with no logical operator between them; otherwise all of it is consumed |
| Operators.WellFormedIsUnambiguous | src/parser/precedence.rs:80-93 | no well-formed tree contains such operators |
| Operators.IncompatibleIsAmbiguous | src/parser/expr.rs:338-351 | an incompatible pair met by the loop, with anything consumed in between, makes the sequence ambiguous |
| Operators.SpellingIsInverse | src/parser/expr.rs:371-389 | each operator is read from exactly one token |
| Grammar.WellFormedIsGrammatical | src/parser/precedence.rs:45-93 | precedences and associativities amount to this grammar, in operators alone: products of atoms, sums of products, one comparison of sums, chains of comparisons with && or of comparisons with or-signs but not both, each growing to the left |
| Grammar.ParserIsGrammatical | src/parser/expr.rs:311-389 | the parser returns a tree if and only if it is the reading of the tokens by that grammar and no operator follows |
| Grammar.DisplayIsRead | src/ast.rs:397-417 | an operator is displayed as the token it is read from if and only if it is none of the four inequalities |
| Grammar.InequalitiesAreRead | src/parser/token.rs:105-175 | the four inequality signs are read as what they say |
| DeadCode.ProcessItem | src/mir/dead_code.rs:43-59 | with distinct labels: succeeds if and only if every block reachable through first terminators exists and has one; then what is left is the specification Pruned |
| DeadCode.ProcessBlock | src/mir/dead_code.rs:63-98 | truncates after the first terminator and adds exactly its targets to the duplicate-free worklist; fails without a terminator |
| DeadCode.Item.Retain | src/mir/dead_code.rs:58 | keeps exactly the listed blocks in order |
| DeadCode.DuplicateFreeIsBounded | src/mir/dead_code.rs:15-19 | the worklist is no longer than the set it draws from, so the loop ends |
| DeadCode.StepPreserved | src/mir/dead_code.rs:43-98 | each step of a run from the entry is the same step after the pass |
| DeadCode.EveryRunPreserved | src/mir/dead_code.rs:43-98 | so is every run, of any length and in any store, ending or not |
| DeadCode.KeepsExactlyReachable | src/mir/dead_code.rs:52-58 | a label is kept if and only if it is reachable |
| DeadCode.PrunedIsClean | src/mir/dead_code.rs:63-98 | every kept block ends at its only terminator and jumps only to kept blocks |
| DeadCode.EntryStays | src/mir/dead_code.rs:46 | the entry stays first |
| DeadCode.PrunedAllReachable | src/mir/dead_code.rs:43-59 | afterwards exactly the kept blocks are reachable |
| DeadCode.SecondPassIsIdle | src/mir/dead_code.rs:43-98 | a second pass changes nothing |
| Ast.MoreFuel | src/mir/lower.rs:455-488 | the reference evaluation does not depend on the bound on loop iterations once it has ended, by a value, a return or a slip |
| Ast.UnitSound | src/typechecker/expr.rs:97-135 | a completed expression of the unit type has the unit value, and variables keep their scope |
| Lowerer.Lowerer.FunctionLike | src/mir/lower.rs:302-376 | the blocks of a function, as LowerFunction says |
| Lowerer.Lowerer.BlockValue | src/mir/lower.rs:391-422 | a block in its own frame: statements, result, drops unless it is flagged as diverging |
| Lowerer.Lowerer.RemoveLiveVariable | src/mir/lower.rs:1523-1536 | removes the first occurrence from the top frame and returns its type |
| Lowerer.Lowerer.DropAll | src/mir/lower.rs:418-420 | drops a frame, last variable first |
| Lowerer.Lowerer.DropAllSlots | src/mir/lower.rs:569-573 | drops every frame, innermost first |
| Pipeline.LowerToMir | src/mir/lower.rs:139-217 | neither pass panics; a name has an item if and only if it is declared and in the compilation order, and it has only one; items come in the order of first occurrences; the blocks of an item are the pruned blocks of the last declaration of its name |
| Pipeline.DeclaredNames | src/mir/lower.rs:147-213 | the functions by name are those of the declared names |
| Pipeline.DeclaredIsLast | src/mir/lower.rs:147-213 | of several declarations of a name the last one counts |
| Pipeline.ItemsFollowOrder | src/mir/lower.rs:215-216 | of two items the one whose name first occurs earlier comes first |
| Pipeline.OrderedIsComplete | src/mir/lower.rs:215-216 | a name is an item if and only if it is declared and in the compilation order, with the function declared last under that name |
| Pipeline.OrderIsKept | src/mir/lower.rs:215-216 | a name that first occurs earlier in the compilation order is an earlier item |
| LoweringShape.ExprLowers | src/mir/lower.rs:455-488 | lowering an expression only adds code, hands out no label without giving it a block, leaves outer frames alone, adds only fresh temporaries to the top frame, and never asks to remove a variable that is not live |
| LoweringShape.BlockLowers | src/mir/lower.rs:391-422 | a block leaves all frames as it found them |
| LoweringShape.ShortcircuitLowers | src/mir/lower.rs:1106-1176 | a logical operator adds exactly its shared temporary |
| LoweringShape.IfElseLowers | src/mir/lower.rs:1234-1281 | an if adds the temporaries of its condition and its result |
| LoweringShape.WhileLowers | src/mir/lower.rs:1283-1314 | a loop adds the temporaries of its condition, in the frame around the loop |
| LoweringShape.RemoveLiveLowers | src/mir/lower.rs:1523-1536 | removing a temporary that was added is always possible and yields the type it was added with |
| LoweringShape.RestIsExact | src/mir/lower.rs:455-488 | what the predicate Rest says about the source is what lowering does: next to its value an expression leaves a managed temporary in the frame if and only if Rest holds |
| LoweringShape.InVarIsExact | src/mir/lower.rs:126-134 | the same once the value is in a variable |
| LoweringShape.StmtsRestIsExact | src/mir/lower.rs:429-453 | statements leave something managed in the frame of their block if and only if RestOf holds |
| LoweredNames.FunctionNamed | src/mir/lower.rs:1518-1521 | the variables of a function are temporaries and the names its source declares, with their types |
| TypedCode.CodeIsTyped | src/mir/lower.rs:302-376 | where the recorded types of the source agree wherever a value is put somewhere, every instruction of the function is typed: it names variables of the function, assigns at the type of the target, moves, reads and returns at the type of the source, and drops at the type of what it drops |
| TypedCode.DropsAreTyped | src/mir/lower.rs:424-427 | in every typed function each drop names a variable of the function with the type it was declared with; all drops are at that type if and only if the two sides of every assignment have the same recorded type |
| TypedCode.MismatchedDrop | src/mir/lower.rs:885-928 | an accepted function, with the flag the checker computes, in which some drop is at another type |
| LoweringSim.DropsRun | src/mir/lower.rs:418-420 | the emitted drops of a frame empty exactly its variables |
| LoweringSim.AssignVariableRuns | src/mir/lower.rs:918-925 | an assignment is three instructions that change one named variable and leave no temporary behind |
| LoweringSim.ReturnRuns | src/mir/lower.rs:566-576 | a return runs to its end with its value, and with nothing owned left |
| LoweringSim.ShrinkFits | src/mir/lower.rs:1302-1311 | at the back edge of a loop the store fits the head of the loop again; a managed temporary of the condition, if there is one, holds a value without being live |
| LoweringRuns.ExprRuns | src/mir/lower.rs:455-488 | for every expression, scope, store and bound: the emitted code runs to where lowering went on, with the value pending, every variable in scope at its source value and all live variables owned; or to the return; or gets stuck where the source slips; or for at least as many steps as the bound. Drops in order before stay in order if and only if the evaluation leaks nothing |
| LoweringRuns.BlockRuns | src/mir/lower.rs:391-422 | the same for blocks, flagged or not, whose result is left in a temporary |
| LoweringRuns.StmtsRuns | src/mir/lower.rs:394-397 | the same for statements: afterwards every variable in scope, old or new, has its source value |
| LoweringRuns.LetRuns | src/mir/lower.rs:431-443 | let |
| LoweringRuns.AssignExprRuns | src/mir/lower.rs:885-928 | assignment |
| LoweringRuns.BinOpRuns | src/mir/lower.rs:949-1023 | strict operators, left operand first |
| LoweringRuns.ShortcircuitRuns | src/mir/lower.rs:1106-1176 | the logical operators, on the path that evaluates the right operand and on the one that does not |
| LoweringRuns.IfElseRuns | src/mir/lower.rs:1234-1281 | if with and without else, also with branches that slip |
| LoweringRuns.WhileRuns | src/mir/lower.rs:1283-1314 | loops, including those that never end |
| LoweringBlocks.BlockExitRuns | src/mir/lower.rs:404-421 | leaving a block drops everything in its frame except the result; leaving a flagged block drops nothing, and something managed is left undropped if and only if Holds says so |
| LoweredFunctions.LoweredShape | src/mir/lower.rs:302-376 | for every function: no panic, distinct labels, the entry first, a terminator in every block, only jumps to emitted blocks |
| LoweredFunctions.LoweredIsProcessable | src/mir/dead_code.rs:53-97 | so the panics of dead code elimination are unreachable |
| LoweredFunctions.FunctionRuns | src/mir/lower.rs:302-376 | every evaluation of the body is matched by a run from the entry, also if flagged blocks complete |
| LoweredFunctions.LoweringIsCorrect | src/mir/lower.rs:302-376 | for every typed function, whatever its flags: the source yields a value if and only if the blocks do, and a run reads, moves or drops an empty variable if and only if the source slips, that is, completes a block where a value of another type is expected and asks for that value |
| LoweredFunctions.DropsAreComplete | src/mir/lower.rs:404-421 | for a call that neither slips nor leaks in the source: along the whole run no managed value is overwritten, and at a return every managed value has been dropped, moved or returned |
| LoweredFunctions.DropsAreExact | src/mir/lower.rs:404-421 | for a call that yields a value: the run is clean in that sense if and only if the evaluation leaks nothing |
| LoweredFunctions.DropsSoFarAreExact | src/mir/lower.rs:404-421 | for a call that has not ended within any given bound on loop iterations: a run of at least that many steps is at the head of one loop, and there nothing managed has been overwritten or holds a value without being live if and only if the evaluation has leaked nothing so far |
| LoweredFunctions.TidyIsClean | src/mir/lower.rs:404-421 | a guard on the source alone: if flagged blocks that hold something managed, and bodies of loops whose condition leaves something managed, must exit, every run is clean, whatever the operators do |
| LoweredFunctions.TrustedIsClean | src/mir/lower.rs:404-421 | flags as the checker records them, no flag that stems from a right operand or a loop body, and no loop condition that leaves something managed: every run is clean |
| LoweredFunctions.PipelineIsCorrect | src/mir/lower.rs:48-58 | all of this for what dead code elimination leaves |
| LoweredFunctions.DropsAreReversed | src/mir/lower.rs:417-420 | drops come in reverse order of declaration |
| LoweredFunctions.ReturnDropsAreReversed | src/mir/lower.rs:569-573 | on return, over all frames |
| Divergence.FlagIsSound | src/typechecker/expr.rs:138-160 | an expression whose flag stems neither from a right operand of a logical operator nor from a loop body never completes |
| Divergence.ReliableFlagsAreTrue | src/typechecker/expr.rs:104-135 | the guard under which the flag of a block may be trusted: the block must exit, and so never completes |
| Divergence.MustExitIsSound | src/typechecker/expr.rs:138-160 | an expression that must exit never completes |
| Divergence.FlaggedOperand | src/typechecker/expr.rs:918-927 | a logical operator flagged because of its right operand never completes if and only if its left operand never decides the result |
| Divergence.FlaggedBody | src/typechecker/expr.rs:515-531 | a loop flagged because of its body never completes if and only if its condition is never false |
| Divergence.ExitIsFlagged | src/typechecker/expr.rs:138-160 | an expression that must exit without relying on the condition of an if is flagged |
| Divergence.FlagIsExact | src/typechecker/expr.rs:104-135 | a reliable flag of a block in which no if relies on its condition is set if and only if the block must exit |
| Divergence.ConditionIsIgnored | src/typechecker/expr.rs:475-513 | an if whose condition must exit never completes, and is not flagged for that |
| Divergence.FlagHasReturn | src/typechecker/expr.rs:97-135 | an expression without a return is never flagged |
| Leaks.MoreLeaksBlock | src/mir/lower.rs:404-421 | whether an evaluation leaks does not depend on the bound once it has ended, and more fuel finds no fewer leaks |
| Leaks.TidyBlockNeverLeaks | src/mir/lower.rs:410-419 | code that meets the guard leaks nothing in any evaluation |
| Leaks.TidyBranchNeverSlips | src/typechecker/expr.rs:112-124 | nor does it slip |
| Leaks.TrustedBlockIsTidy | src/typechecker/expr.rs:104-135 | reliable flags and plain loop conditions meet the guard |
| Leaks.HarmlessIsTrusted | src/typechecker/expr.rs:97-135 | code without return and flags, whose loop conditions leave nothing managed, meets the guard |
| LoweringLimits.UnitBodySticks | src/typechecker/expr.rs:112-124 | a body of the unit type in a function that returns another type: the run gets stuck if and only if the body completes, or slips inside |
| LoweringLimits.UnitBranchSticks | src/typechecker/expr.rs:475-497 | the same for the branch that an if takes |
| LoweringLimits.UnitInitSticks | src/typechecker/expr.rs:112-124 | a block of the unit type that initialises a variable of another type: the run gets stuck if and only if the block completes, or slips inside |
| LoweringLimits.FallsOff | src/typechecker/expr.rs:112-124 | a function that the checker accepts, with the flag it computes, and whose code gets stuck |
| LoweringLimits.FlaggedBlockLeaks | src/mir/lower.rs:410-419 | any flagged block, nested or not, that completes while its frame holds something managed: behind it a managed value has been overwritten or belongs to no live variable |
| LoweringLimits.FlaggedBodyLeaks | src/mir/lower.rs:410-419 | if the body of a function is flagged and yields a value all the same, the result is right but every variable it declares is left without a drop |
| LoweringLimits.SkippedDropIsLost | src/mir/lower.rs:410-419 | such a function, with the flag the checker computes |
| LoweringLimits.LoopLoses | src/mir/lower.rs:1302-1311 | every loop whose condition leaves something managed: once the condition has held, the body has completed and the condition has been evaluated again, a managed value has been overwritten |
| LoweringLimits.LoopConditionIsLost | src/mir/lower.rs:1302-1311 | such a loop in a function |
| LoweringLimits.DropsInsideAreExact | src/mir/lower.rs:455-488 | for every expression that completes: drops are in order behind it if and only if its evaluation leaks nothing |
| Layouts.NextMultipleIsLeast | src/runtime/layout.rs:73-88 | next_multiple_of is the least multiple not below |
| Layouts.UnionIsLeast | src/runtime/layout.rs:73-88 | the union is valid and the least valid layout that covers both operands |
| Layouts.UnionCommutes | src/runtime/layout.rs:73-88 | the union does not depend on the order of its operands |
| Layouts.UnionAssociates | src/runtime/layout.rs:73-88 | nor on their grouping |
| Layouts.LayoutBuilder.Add | src/runtime/layout.rs:123-130 | the field goes to the least aligned offset behind all earlier fields |
| Layouts.LayoutBuilder.Finish | src/runtime/layout.rs:133-136 | the assertions of Layout::new always hold |
| Layouts.FieldFits | src/runtime/layout.rs:117-136 | every field is aligned, inside the finished layout, and its alignment divides the whole |
| Layouts.FieldsApart | src/runtime/layout.rs:117-136 | different fields never overlap |
| Layouts.Concat | src/runtime/layout.rs:90-96 | concat contains every field at the offset the builder reported |
| Layouts.OffsetBy | src/runtime/layout.rs:98-102 | the least aligned offset not below n |
| Layouts.FillIsInOrder | src/runtime/layout.rs:117-136 | the offsets of the builder put fields one behind the other, aligned and inside the finished layout |
| Layouts.FillIsLeast | src/runtime/layout.rs:117-136 | no other such placement has any field further to the front, or a smaller or less aligned layout |
| Layouts.NewLayoutAccepts | src/runtime/layout.rs:41-49 | Layout::new accepts exactly the powers of two as alignments and their multiples as sizes |
| Places.LayoutOf | src/mir/ty.rs:172-223 | a layout, if there is one, is valid |
| Places.Pool.ComputeLayout | src/mir/ty.rs:172-223 | the recursive computation with builders |
| Places.Pool.EnumLayout | src/mir/ty.rs:188-216 | the union over the variants that can exist, each behind the tag |
| Places.Pool.LayoutBehind | src/mir/ty.rs:192-202 | fields behind what is in a builder; nothing, once a field is uninhabited |
| Places.Pool.Intern | src/mir/ty.rs:266-268 | a type gets the index of its first occurrence or a new one; earlier types keep theirs |
| Places.Pool.constructor | src/mir/ty.rs:109-145 | the well-known types get the indices of their constants, and the pool is valid |
| Places.WellKnownIsValid | src/mir/ty.rs:109-145 | the well-known types form a valid pool |
| Places.InternKeepsPool | src/mir/ty.rs:266-268 | adding a type made of types of the pool keeps the pool valid |
| Places.LayoutIsStable | src/mir/ty.rs:172-223 | types that are added later change no layout |
| Places.ValuesAreScalars | src/mir/ty.rs:235-264 | there is no answer exactly for uninhabited types, and what is passed by value is empty or 1, 2, 4 or 8 bytes, aligned to its size |
| Places.Pool.GetField | src/lir/lower.rs:669-685 | offsets of record fields, recomputed |
| Places.Pool.GetVariantField | src/lir/lower.rs:637-663 | offsets of variant fields, recomputed |
| Places.Pool.Location | src/lir/lower.rs:614-667 | the loop over the projections adds up their offsets, as LocationOf says; the rows of Locations are about its result |
| Places.UnionCovers | src/mir/ty.rs:188-216 | the layout of an enum covers each variant that can exist |
| Places.StepInside | src/lir/lower.rs:631-663 | one projection that fits stays inside the type it starts from, behind the tag if that is an enum |
| Places.PathInside | src/lir/lower.rs:614-667 | a place at any depth, whose every step fits, is aligned for its type and inside the root layout; steps may lead into variants that cannot exist, if the enum has room for them |
| Places.PathsApart | src/lir/lower.rs:614-667 | places on paths that part at different fields of one record or variant never overlap |
| Places.TagIsApart | src/lir/lower.rs:649-650 | no variant field covers the tag of its enum |
| Places.VariantIsInside | src/lir/lower.rs:637-663 | the places of a variant lie inside the layout of its enum, for every index, if and only if that layout covers the fields of the variant up to the first uninhabited one, laid out behind the tag |
| Places.InhabitedFits | src/mir/ty.rs:188-216 | it does so for every variant that can exist |
| Places.UninhabitedVariantIsOutside | src/lir/lower.rs:637-663 | an enum that does not: a field next to an uninhabited field lies outside |
| Locations.LayoutMeansExistence | src/mir/ty.rs:172-223 | a type has a layout if and only if it has values: a record if all its fields do, an enum if all fields of some variant do |
| Locations.RecordIsLeast | src/mir/ty.rs:182-187 | the layout of a record is the least one in which its fields follow each other in order, and the location of each field is the first one possible |
| Locations.RecordIsInOrder | src/mir/ty.rs:182-187 | in the layout of a record its fields do follow each other in order |
| Locations.EnumIsLeast | src/mir/ty.rs:188-216 | the layout of an enum is the least one in which the fields of every variant that can exist follow each other behind the tag |
| Locations.VariantIsInOrder | src/mir/ty.rs:188-216 | in the layout of an enum they do |
| Locations.VariantFieldIsLeast | src/lir/lower.rs:637-663 | the location of each field of such a variant is the first one possible behind the tag |
| Locations.LocationOfVariable | src/lir/lower.rs:614-629 | a whole variable is nowhere if its type has no values, itself if it is a scalar or takes no bytes, and behind the pointer at offset 0 otherwise |
| Locations.FieldIs | src/lir/lower.rs:669-685 | a field is found if and only if the record has it and it and all fields before it can exist; otherwise the compiler panics |
| Locations.VariantFieldLeads | src/lir/lower.rs:637-663 | a field of a variant is found if the field and all before it can exist; if one cannot, there is no location; without the variant, or without fields, the compiler panics |
| Locations.LocationInside | src/lir/lower.rs:614-667 | a path that fits leads behind the pointer, aligned for the type at its end, with all bytes inside the variable |
| Locations.LocationsApart | src/lir/lower.rs:614-667 | paths that part lead to bytes that do not overlap |
| Locations.LocationsAdd | src/lir/lower.rs:631-665 | the offset of two paths in a row is the sum of their offsets |
| Locations.LocationFails | src/lir/lower.rs:631-665 | a path that leads nowhere ends as its first step that leads nowhere does |
| Locations.WriteThroughPath | src/lir/lower.rs:590-612 | what is written to the location of one path is read back from there, and what is at the location of a parting path stays as it was |
| PlacesInMemory.PlaceIsAccepted | src/lir/eval.rs:253-275 | behind any pointer with room for the variable, the checked memory accepts the location of a path if and only if its offset in the allocation is a multiple of its size |
| PlacesInMemory.ScalarsAreAccepted | src/lir/eval.rs:253-275 | behind a pointer aligned for the variable it accepts the location of every scalar |
| PlacesInMemory.NestedRecordIsRejected | src/lir/eval.rs:253-275 | a record in a record that it does not accept |
| PlacesInMemory.MoveIsLocal | src/lir/lower.rs:601-611 | a move by value to the location of a path, evaluated: it goes through under that condition, is read back from the location, and leaves the locations of parting paths as they were |
| PlacesInMemory.CopyIsLocal | src/lir/lower.rs:601-609 | a move by reference, which copies: it goes through if and only if the source can be read and the location is accepted, the location then holds what the source held before, and those of parting paths are as they were |
| UnionFind.UnionFind.Find | src/typechecker/unionfind.rs:22-36 | on every acyclic table: ends, returns what find_ref returns, and changes no answer to any later query |
| UnionFind.UnionFind.Fresh | src/typechecker/unionfind.rs:39-44 | a new variable stands for itself; the others are as before |
| UnionFind.UnionFind.Set | src/typechecker/unionfind.rs:47-49 | redirects exactly the class of the root that is set |
| UnionFind.CompressionIsInvisible | src/typechecker/unionfind.rs:29-33 | any amount of compression leaves all resolved types, and the roots of unset classes, as they were |
| UnionFind.SetRedirectsClass | src/typechecker/unionfind.rs:47-49 | also for variables that hold stale copies of the root |
| UnionFind.SetWithinClassIsCyclic | src/typechecker/unionfind.rs:47-49 | setting an unset root to a variable keeps the table acyclic if and only if that variable is the root itself or of another class |
| UnionFind.FreshIsApart | src/typechecker/unionfind.rs:39-44 | a self-referring entry at the end disturbs no other |
| UnionFind.EveryRunIsPlain | src/typechecker/unionfind.rs:22-49 | over every run of fresh, find and set, however it compresses: the table stays acyclic and every variable stands for what it would stand for without compression |
| UnionFind.FindRefIs | src/typechecker/unionfind.rs:51-63 | a variable of any of the four kinds that refers to another entry stands for what that entry stands for, and what is found is no variable or refers to itself |
| LirMemory.FrameCheckIsExact | src/lir/eval.rs:138-222 | over every run, a pointer made by allocate passes the frame check if and only if the stack has never been popped below its frame since, even if its index is in use again |
| LirMemory.OffsetSharesFrame | src/lir/eval.rs:194-205 | a derived pointer passes exactly when the one it was derived from does |
| LirMemory.RunKeepsInvariant | src/lir/eval.rs:171-222 | ids are never reused, and a pointer whose frame is there points at an allocation of it |
| LirMemory.AccessIsExact | src/lir/eval.rs:157-169 | so an access panics only for a frame that is gone, out of bounds, or at an offset that is no multiple of the size |
| LirMemory.WriteIsRead | src/lir/eval.rs:253-275 | a write is read back and leaves other allocations, and other bytes of the same one, alone |
| LirMemory.CopyIsBuffered | src/lir/eval.rs:133-136 | a copy goes through if and only if both accesses would, and the target gets the old bytes of the source, also on overlap |
| LirMemory.ReadIsPeeks | src/lir/eval.rs:268-275 | a read returns the single bytes at the distances 0 to its size |
| LirMemory.WriteIsPeeked | src/lir/eval.rs:253-266 | after a write each of its bytes is found at its distance |
| LirMemory.OffsetIsDistance | src/lir/eval.rs:104-111 | the byte at some distance from a derived pointer is the byte at the summed distance from its origin; an accepted read through it returns the bytes of the allocation from the offset of its origin plus the distance; other pointers are not affected |
| LirMemory.OffsetsAdd | src/lir/eval.rs:194-205 | two offsets in a row give the same reads as one by their sum |
| LirMemory.AllocationIsZero | src/lir/eval.rs:207-222 | through a new pointer there are as many bytes as asked for, all zero |
| LirMemory.OnlyWritesChange | src/lir/eval.rs:171-222 | pushing, popping, allocating and offsetting change no read, except that a pop ends those of its frame |
| LirMemory.PopReturnsWherePushed | src/lir/eval.rs:171-192 | over every run, a frame carries the return address it was pushed with until it is popped |
| LirMemory.MultipleIs | src/lir/eval.rs:258-272 | the alignment check accepts multiples of the size, and for size 0 only offset 0 |
| LirMemory.Memory.PushFrame | src/lir/eval.rs:171-184 | a frame with a new id |
| LirMemory.Memory.PopFrame | src/lir/eval.rs:186-192 | the top frame goes, the root stays |
| LirMemory.Memory.AllocateBytes | src/lir/eval.rs:207-222 | zeroed bytes in the top frame and a live pointer to them |
| LirMemory.Memory.OffsetBy | src/lir/eval.rs:194-205 | a new pointer into the same allocation, at the summed offset: every byte at a distance from it is the byte at the summed distance from its origin |
| LirMemory.Memory.Read | src/lir/eval.rs:157-169 | the bytes, or a panic |
| LirMemory.Memory.WriteBytes | src/lir/eval.rs:138-150 | the new memory, or a panic that changes nothing |
| LirMemory.Memory.CopyBytes | src/lir/eval.rs:133-136 | a read and a write |

## Left out

- Order of iteration over maps and sets: left open, so that the results hold for every order.
- Width of `usize`: sizes, offsets, indices and counters are unbounded.
- Lowering of records, lists, `match`, `for`, `?`, f-strings, calls, compound assignment, `accept` and `reject`, constants and context variables, and of operators that become runtime calls.
- Places with projections in the MIR: the lowering model assigns and drops whole variables.
- Pipeline.LowerToMir: filter maps and tests are lowered like functions and not told apart from them; constants, which are items too, are left out.
- Early exits inside record literals and call arguments: those constructs are not modelled.
- LoweredFunctions.FunctionRuns: leaves out functions that declare a variable, a parameter or their result as `!` and then give it a value of another type or use it as one. The type checker admits both, because `!` unifies with every type (`src/typechecker/mod.rs:1266`); `TypedFunction` does not.
- LoweredFunctions.LoweringIsCorrect: the same functions are left out.
- LoweredFunctions.PipelineIsCorrect: the same functions are left out.
- TypedCode.CodeIsTyped: says nothing about functions that put a value where another type is recorded, which the type checker admits for what never completes; `DropsAreTyped` is about those too.
- Values of the unit type: they need neither initialisation nor drop, because they occupy no storage later on; an `if` without `else` relies on it.
- Names and structure of labels: a label is its index in the label store, of which every function has its own here.
- Unification: `UnionFind.Set` asks for what its callers provide, an unset root and a type of another class.
- Type arguments in the search for type cycles: only the head of a named type is followed, as in the code.
- TypeCycle.DetectTypeCycles: the error message does not name a cycle, so the model only says that one exists.
- Layouts of host types (strings, addresses, prefixes, lists, registered types): parameters that are only assumed valid.
- The tag of an enum is written as a `u8`; enums with more than 256 variants are not considered.
- Global pointers, the values of return places and the arithmetic of the LIR evaluator.
- Code generation, the lexer, literals, spans, diagnostics, scope lookup, registration and the command line.
